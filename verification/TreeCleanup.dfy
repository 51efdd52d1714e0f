/** Budgeted removal of abandoned artifacts, internal/maintenance/cleanup.go: removeTree
    and the pending-tree resumption of cleanDirectory, over a finite tree of nodes. */
module TreeCleanup {
  import opened Wrappers
  import opened Leases
  import opened Sets

  const TREE_NODES: int := 128
  const ENTRIES: int := 128

  datatype Kind = Dir | Regular | Symlink(target: Path) | Pipe | Other

  datatype Node = Node(kind: Kind, size: nat, inode: nat, mtime: int)

  type Nodes = map<Path, Node>

  /** Every node but the root stands in a directory. */
  ghost predicate Tree(nodes: Nodes) {
    forall p :: p in nodes && p != [] ==> p[..|p| - 1] in nodes && nodes[p[..|p| - 1]].kind == Dir
  }

  predicate IsChild(nodes: Nodes, p: Path, name: string) { p + [name] in nodes }

  /** `after` is `before` without some nodes at or below `path`. */
  ghost predicate Pruned(before: Nodes, after: Nodes, path: Path) {
    && (forall p :: p in after ==> p in before && after[p] == before[p])
    && (forall p :: p in before && p !in after ==> path <= p)
    && Tree(after)
  }

  ghost predicate Gone(nodes: Nodes, path: Path) {
    forall p :: p in nodes ==> !(path <= p)
  }

  /** No chain of nodes from `path` down is longer than h. */
  ghost predicate HeightAtMost(nodes: Nodes, path: Path, h: int) {
    forall p :: p in nodes && path <= p ==> |p| - |path| < h
  }

  ghost predicate IsLeaf(nodes: Nodes, p: Path) { forall name :: !IsChild(nodes, p, name) }

  /** Every node with fewer than h nodes above it, from `path` on, has a child. */
  ghost predicate NoLeafWithin(nodes: Nodes, path: Path, h: int) {
    forall p :: p in nodes && path <= p && |p| - |path| < h ==> nodes[p].kind == Dir && !IsLeaf(nodes, p)
  }

  ghost function Under(nodes: Nodes, path: Path): set<Path> { set p | p in nodes && path <= p }

  function FreedSize(n: Node): nat { if n.kind == Dir then 0 else n.size }

  /** What the files, links and pipes of a tree occupy. */
  ghost function Bytes(nodes: Nodes): nat
    decreases |nodes|
  {
    if nodes == map[] then 0
    else
      var p :| p in nodes;
      FreedSize(nodes[p]) + Bytes(nodes - {p})
  }

  /** A directory adds nothing to what can be freed, any other node its size. */
  lemma BytesWithOneMore(nodes: Nodes, p: Path, n: Node)
    requires p !in nodes
    ensures Bytes(nodes[p := n]) == Bytes(nodes) + if n.kind == Dir then 0 else n.size
    ensures Bytes(map[]) == 0
  {
    BytesWithout(nodes[p := n], p);
    assert nodes[p := n] - {p} == nodes;
  }

  lemma {:induction false} BytesWithout(nodes: Nodes, p: Path)
    requires p in nodes
    ensures Bytes(nodes) == FreedSize(nodes[p]) + Bytes(nodes - {p})
    decreases |nodes|
  {
    var q :| q in nodes && Bytes(nodes) == FreedSize(nodes[q]) + Bytes(nodes - {q});
    if q != p {
      BytesWithout(nodes - {q}, p);
      BytesWithout(nodes - {p}, q);
      assert nodes - {q} - {p} == nodes - {p} - {q};
    }
  }

  lemma PrunedFurther(before: Nodes, mid: Nodes, after: Nodes, path: Path, child: Path)
    requires Pruned(before, mid, path) && Pruned(mid, after, child) && path <= child
    ensures Pruned(before, after, path)
  {
  }

  lemma RemovedIsUnder(before: Nodes, after: Nodes, path: Path)
    requires Pruned(before, after, path)
    ensures |Under(before, path)| - |Under(after, path)| == |before| - |after|
  {
    hide Tree;
    var removed := before.Keys - after.Keys;
    Partition(before.Keys, after.Keys, removed);
    Partition(Under(before, path), Under(after, path), removed);
  }

  lemma Partition(whole: set<Path>, a: set<Path>, b: set<Path>)
    requires forall p :: p in whole <==> p in a || p in b
    requires a !! b
    ensures |whole| == |a| + |b|
  {
    assert whole == a + b;
  }

  lemma UnderChild(nodes: Nodes, path: Path, child: Path)
    requires path in nodes && path < child
    ensures |Under(nodes, child)| < |Under(nodes, path)|
  {
    assert Under(nodes, child) + {path} <= Under(nodes, path);
    SubsetSize(Under(nodes, child) + {path}, Under(nodes, path));
  }

  /** The subtree at `path` is as it was. */
  ghost predicate Untouched(before: Nodes, now: Nodes, path: Path) {
    forall p :: path <= p ==> (p in before <==> p in now) && (p in before && p in now ==> before[p] == now[p])
  }

  lemma OnePrefix(a: Path, b: Path, p: Path)
    requires a <= p && b <= p && |a| == |b|
    ensures a == b
  {
  }

  lemma SiblingUntouched(before: Nodes, mid: Nodes, now: Nodes, child: Path, sibling: Path)
    requires Untouched(before, mid, sibling) && Pruned(mid, now, child)
    requires |child| == |sibling| && child != sibling
    ensures Untouched(before, now, sibling)
  {
    forall p | sibling <= p ensures (p in before <==> p in now) && (p in before && p in now ==> before[p] == now[p]) {
      if child <= p {
        OnePrefix(child, sibling, p);
      }
    }
  }

  lemma UntouchedHeights(before: Nodes, now: Nodes, path: Path, child: Path, h: int)
    requires Untouched(before, now, child) && path <= child && |child| == |path| + 1
    ensures HeightAtMost(before, path, h) ==> HeightAtMost(now, child, h - 1)
    ensures NoLeafWithin(before, path, h) ==> NoLeafWithin(now, child, h - 1)
  {
    if NoLeafWithin(before, path, h) {
      forall p | p in now && child <= p && |p| - |child| < h - 1 ensures now[p].kind == Dir && !IsLeaf(now, p) {
        assert p in before && !IsLeaf(before, p);
        var name :| IsChild(before, p, name);
        assert IsChild(now, p, name);
      }
    }
  }

  ghost function Names(nodes: Nodes, path: Path): set<string> {
    set p | p in nodes && |p| == |path| + 1 && path <= p :: p[|path|]
  }

  lemma NamesAreChildren(nodes: Nodes, path: Path, name: string)
    ensures name in Names(nodes, path) <==> IsChild(nodes, path, name)
  {
    assert (path + [name])[|path|] == name;
    if name in Names(nodes, path) {
      var p :| p in nodes && |p| == |path| + 1 && path <= p && p[|path|] == name;
      assert p == path + [name];
    }
  }

  /** What a directory read can return: some children, each once. */
  ghost predicate Listing(nodes: Nodes, path: Path, names: seq<string>) {
    && (forall i :: 0 <= i < |names| ==> IsChild(nodes, path, names[i]))
    && (forall i, j :: 0 <= i < j < |names| ==> names[i] != names[j])
  }

  /** The part of a tree removal that is already behind the loop over the names. */
  ghost predicate Remaining(before: Nodes, now: Nodes, path: Path, names: seq<string>, i: nat)
    requires i <= |names|
  {
    && Pruned(before, now, path)
    && path in now && path in before && now[path] == before[path]
    && (forall k :: 0 <= k < i ==> Gone(now, path + [names[k]]))
    && (forall k :: i <= k < |names| ==> Untouched(before, now, path + [names[k]]))
  }

  lemma OneNameDone(before: Nodes, mid: Nodes, now: Nodes, path: Path, names: seq<string>, i: nat)
    requires i < |names| && Listing(before, path, names)
    requires Remaining(before, mid, path, names, i) &&
      Pruned(mid, now, path + [names[i]]) && Gone(now, path + [names[i]])
    ensures Remaining(before, now, path, names, i + 1)
  {
    hide Tree;
    var child := path + [names[i]];
    PrunedFurther(before, mid, now, path, child);
    assert !(child <= path);
    forall k | i + 1 <= k < |names| ensures Untouched(before, now, path + [names[k]]) {
      assert (path + [names[k]])[|path|] == names[k] && child[|path|] == names[i];
      SiblingUntouched(before, mid, now, child, path + [names[k]]);
    }
  }

  lemma AllNamesGone(before: Nodes, now: Nodes, path: Path, names: seq<string>)
    requires Remaining(before, now, path, names, |names|) && Listing(before, path, names)
    requires forall name :: IsChild(before, path, name) ==> name in names
    ensures IsLeaf(now, path)
  {
    forall name | IsChild(before, path, name) ensures !IsChild(now, path, name) {
      var k :| 0 <= k < |names| && names[k] == name;
      assert Gone(now, path + [names[k]]);
    }
  }

  lemma {:induction false} AncestorsStand(nodes: Nodes, p: Path, k: nat)
    requires Tree(nodes) && p in nodes && k <= |p|
    ensures p[..k] in nodes && (k < |p| ==> nodes[p[..k]].kind == Dir)
    decreases |p|
  {
    if k == |p| {
      assert p[..k] == p;
    } else {
      var up := p[..|p| - 1];
      if k < |up| {
        AncestorsStand(nodes, up, k);
        assert up[..k] == p[..k];
      } else {
        assert p[..k] == up;
      }
    }
  }

  lemma ChildOnTheWay(nodes: Nodes, path: Path, p: Path)
    requires Tree(nodes) && p in nodes && path < p
    ensures IsChild(nodes, path, p[|path|])
  {
    AncestorsStand(nodes, p, |path| + 1);
    hide Tree;
    assert p[..|path| + 1] == path + [p[|path|]];
  }

  lemma LeafIsAlone(nodes: Nodes, path: Path, p: Path)
    requires Tree(nodes) && IsLeaf(nodes, path) && p in nodes && path <= p
    ensures p == path
  {
    if path < p {
      ChildOnTheWay(nodes, path, p);
    }
  }

  lemma {:induction false} AbsentIsGone(nodes: Nodes, path: Path, p: Path)
    requires Tree(nodes) && path !in nodes && path <= p
    ensures p !in nodes
    decreases |p|
  {
    if path == p {
    } else {
      AbsentIsGone(nodes, path, p[..|p| - 1]);
      assert p != [] && p[..|p| - 1] !in nodes;
    }
  }

  lemma LeafRemoved(nodes: Nodes, path: Path)
    requires Tree(nodes) && path in nodes && IsLeaf(nodes, path)
    ensures Pruned(nodes, nodes - {path}, path) && Gone(nodes - {path}, path)
    ensures |nodes - {path}| == |nodes| - 1
  {
    forall p | p in nodes && path <= p ensures p == path {
      LeafIsAlone(nodes, path, p);
    }
    TreeWithout(nodes, path);
    hide Tree, IsLeaf;
    assert (nodes - {path}).Keys == nodes.Keys - {path};
  }

  lemma TreeWithout(nodes: Nodes, path: Path)
    requires Tree(nodes) && IsLeaf(nodes, path)
    ensures Tree(nodes - {path})
  {
    var now := nodes - {path};
    forall p | p in now && p != [] ensures p[..|p| - 1] in now && now[p[..|p| - 1]].kind == Dir {
      ParentStands(nodes, path, p);
    }
  }

  lemma ParentStands(nodes: Nodes, path: Path, p: Path)
    requires Tree(nodes) && IsLeaf(nodes, path) && p in nodes && p != []
    ensures p[..|p| - 1] in nodes && nodes[p[..|p| - 1]].kind == Dir && p[..|p| - 1] != path
  {
    assert p == p[..|p| - 1] + [p[|p| - 1]];
    assert !IsChild(nodes, path, p[|p| - 1]);
  }

  // ------------------------------------------------------ what one removal does

  /** How removing the tree at `path` with this budget may end. `quiet` says that no call
      fails and the context outlives the budget. */
  ghost predicate Outcome(before: Nodes, after: Nodes, path: Path, budget: int, left: int, complete: bool,
                          failed: bool, quiet: bool) {
    // only nodes at or below the path went, and nothing else changed
    && Pruned(before, after, path)
    // the budget is never exceeded, and complete means gone
    && left <= budget && (budget >= 0 ==> 0 <= left)
    && (complete ==> !failed && left < budget && Gone(after, path))
    && (!complete && path in before ==> path in after)
    && (quiet && path !in before && budget > 0 ==> complete)
    && (quiet && path in before ==> QuietOutcome(before, after, path, budget, left, complete, failed))
    // a tree all of whose leaves lie deeper than the budget loses nothing
    && (path in before && NoLeafWithin(before, path, budget) ==> !complete && after == before)
  }

  /** A tree within the budget goes entirely, each node costing one visit; a larger tree
      uses the whole budget, and shrinks if its height is within the budget. */
  ghost predicate QuietOutcome(before: Nodes, after: Nodes, path: Path, budget: int, left: int, complete: bool,
                               failed: bool) {
    && !failed
    && (complete ==> |before| - |after| == budget - left)
    && (!complete ==> left == 0 && budget < |Under(before, path)|)
    && (HeightAtMost(before, path, budget) ==> |after| < |before|)
  }

  /** Where the loop over the names stands after i of them. */
  ghost predicate Underway(before: Nodes, now: Nodes, path: Path, names: seq<string>, i: nat, budget: int,
                           left: int, quiet: bool)
    requires i <= |names|
  {
    && Remaining(before, now, path, names, i)
    && 0 <= left <= budget - i
    && (quiet ==> |before| - |now| == budget - left)
    && (NoLeafWithin(before, path, budget + 1) ==> i == 0 && now == before)
  }

  lemma StartOfLoop(before: Nodes, path: Path, names: seq<string>, budget: int, quiet: bool)
    requires Tree(before) && path in before && budget >= 0
    ensures Underway(before, before, path, names, 0, budget, budget, quiet)
  {
  }

  lemma ChildDone(before: Nodes, mid: Nodes, now: Nodes, path: Path, names: seq<string>, i: nat, budget: int,
                  was: int, left: int, quiet: bool)
    requires i < |names| && Listing(before, path, names) && Underway(before, mid, path, names, i, budget, was, quiet)
    requires Outcome(mid, now, path + [names[i]], was, left, true, false, quiet)
    ensures Underway(before, now, path, names, i + 1, budget, left, quiet)
  {
    var child := path + [names[i]];
    assert child in mid;
    OneNameDone(before, mid, now, path, names, i);
    UntouchedHeights(before, mid, path, child, budget + 1);
    hide Tree, Pruned, Gone, HeightAtMost, NoLeafWithin, Remaining, IsLeaf;
    if NoLeafWithin(before, path, budget + 1) {
      assert was <= budget;
      FewerLeavesWithin(mid, child, was, budget);
    }
  }

  lemma FewerLeavesWithin(nodes: Nodes, path: Path, a: int, b: int)
    requires a <= b && NoLeafWithin(nodes, path, b)
    ensures NoLeafWithin(nodes, path, a)
  {
  }

  lemma ChildStopped(before: Nodes, mid: Nodes, now: Nodes, path: Path, names: seq<string>, i: nat, budget: int,
                     was: int, left: int, failed: bool, quiet: bool)
    requires i < |names| && Listing(before, path, names) && Underway(before, mid, path, names, i, budget, was, quiet)
    requires Outcome(mid, now, path + [names[i]], was, left, false, failed, quiet)
    ensures Outcome(before, now, path, budget + 1, left, false, failed, quiet)
  {
    var child := path + [names[i]];
    assert child in mid && path in mid;
    PrunedFurther(before, mid, now, path, child);
    UntouchedHeights(before, mid, path, child, budget + 1);
    RemovedIsUnder(before, mid, path);
    UnderChild(mid, path, child);
    Shrinks(mid, now, child);
    if NoLeafWithin(before, path, budget + 1) {
      FewerLeavesWithin(mid, child, was, budget);
    }
    hide Tree, Pruned, Gone, Remaining, IsLeaf, Under, NoLeafWithin, HeightAtMost;
    if quiet {
      assert was < budget ==> |mid| < |before|;
    }
  }

  lemma Shrinks(before: Nodes, after: Nodes, path: Path)
    requires Pruned(before, after, path)
    ensures |after| <= |before|
  {
    hide Tree;
    assert after.Keys <= before.Keys;
    SubsetSize(after.Keys, before.Keys);
  }

  /** With every name behind it, the directory is empty and can go. */
  lemma NamesExhausted(before: Nodes, now: Nodes, path: Path, names: seq<string>, budget: int, left: int, quiet: bool)
    requires Listing(before, path, names) && Underway(before, now, path, names, |names|, budget, left, quiet)
    requires |names| < budget + 1 ==> forall name :: IsChild(before, path, name) ==> name in names
    requires names == [] ==> IsLeaf(before, path)
    ensures IsLeaf(now, path)
    ensures !NoLeafWithin(before, path, budget + 1)
  {
    hide Tree;
    AllNamesGone(before, now, path, names);
  }

  lemma NodeRemoved(before: Nodes, now: Nodes, path: Path, budget: int, left: int, quiet: bool)
    requires Pruned(before, now, path) && path in now && IsLeaf(now, path) && 0 <= left <= budget
    requires quiet ==> |before| - |now| == budget - left
    requires !NoLeafWithin(before, path, budget + 1)
    ensures Outcome(before, now - {path}, path, budget + 1, left, true, false, quiet)
  {
    LeafRemoved(now, path);
    PrunedFurther(before, now, now - {path}, path, path);
    hide Tree, Pruned, IsLeaf, NoLeafWithin, Gone;
  }

  lemma NodeKept(before: Nodes, now: Nodes, path: Path, budget: int, left: int)
    requires Pruned(before, now, path) && 0 <= left <= budget
    requires NoLeafWithin(before, path, budget + 1) ==> now == before
    requires path in now
    ensures Outcome(before, now, path, budget + 1, left, false, true, false)
  {
  }

  lemma CalmerOutcome(before: Nodes, after: Nodes, path: Path, budget: int, left: int, complete: bool,
                      failed: bool, still: bool, quiet: bool)
    requires Outcome(before, after, path, budget, left, complete, failed, still) && (quiet ==> still)
    ensures Outcome(before, after, path, budget, left, complete, failed, quiet)
    ensures complete ==> !failed
    ensures Tree(after) && left <= budget && (budget >= 0 ==> 0 <= left)
  {
  }

  lemma UnderwayFacts(before: Nodes, now: Nodes, path: Path, names: seq<string>, i: nat, budget: int, left: int,
                      quiet: bool)
    requires i <= |names| && Underway(before, now, path, names, i, budget, left, quiet)
    ensures path in now && path in before && now[path] == before[path] && Pruned(before, now, path)
    ensures 0 <= left <= budget - i && (quiet ==> |before| - |now| == budget - left)
    ensures i > 0 ==> !NoLeafWithin(before, path, budget + 1)
  {
  }

  lemma PlainNodeIsLeaf(nodes: Nodes, path: Path)
    requires Tree(nodes) && path in nodes && nodes[path].kind != Dir
    ensures IsLeaf(nodes, path)
  {
    forall name ensures !IsChild(nodes, path, name) {
      assert (path + [name])[..|path|] == path;
    }
  }

  lemma NothingDone(before: Nodes, path: Path, budget: int, failed: bool, quiet: bool)
    requires Tree(before) && (quiet ==> budget == 0 && !failed)
    ensures Outcome(before, before, path, budget, budget, false, failed, quiet)
  {
    if path in before {
      assert path in Under(before, path);
    }
  }

  lemma AlreadyGone(before: Nodes, path: Path, budget: int, quiet: bool)
    requires Tree(before) && path !in before && budget >= 1
    ensures Outcome(before, before, path, budget, budget - 1, true, false, quiet)
  {
    forall p | path <= p ensures p !in before {
      AbsentIsGone(before, path, p);
    }
  }

  lemma Keeps(before: Nodes, path: Path)
    requires Tree(before)
    ensures Pruned(before, before, path)
  {
  }

  // --------------------------------------------------------------- the file system

  class FileSystem {
    var nodes: Nodes
    var patience: nat                                   // context checks until it is cancelled
    const badStat: set<Path>                            // paths on which a call fails
    const badOpen: set<Path>
    const badRemove: set<Path>
    var visited: nat                                    // the report
    var removedFiles: nat
    var removedBytes: nat

    constructor (nodes: Nodes, patience: nat, badStat: set<Path>, badOpen: set<Path>, badRemove: set<Path>)
      ensures this.nodes == nodes && this.patience == patience
      ensures this.badStat == badStat && this.badOpen == badOpen && this.badRemove == badRemove
      ensures visited == 0 && removedFiles == 0 && removedBytes == 0
    {
      this.nodes, this.patience := nodes, patience;
      this.badStat, this.badOpen, this.badRemove := badStat, badOpen, badRemove;
      visited, removedFiles, removedBytes := 0, 0, 0;
    }

    /** No call on the tree at `path` fails. */
    ghost predicate Faultless(path: Path) {
      forall p :: path <= p ==> p !in badStat && p !in badOpen && p !in badRemove
    }

    /** And the context outlives the budget. */
    ghost predicate Quiet(path: Path, patience: int, budget: int) {
      Faultless(path) && patience > budget >= 0
    }

    lemma StillQuiet(path: Path, child: Path, p: int, b: int, patience: int, budget: int)
      requires Quiet(path, p, b) && path <= child && 0 <= budget <= b && patience >= p - (b - budget)
      ensures Quiet(child, patience, budget)
    {
    }

    lemma QuietRemovable(path: Path, p: int, b: int)
      requires Quiet(path, p, b)
      ensures path !in badRemove
    {
    }

    /** Up to n names of a directory, in no particular order. */
    method ReadDirNames(path: Path, n: int) returns (names: seq<string>)
      requires n >= 1
      ensures Listing(nodes, path, names)
      ensures |names| < n ==> forall name :: IsChild(nodes, path, name) ==> name in names
      ensures |names| <= n && (names == [] ==> IsLeaf(nodes, path))
    {
      names := [];
      var rest: set<string> := set p | p in nodes && |p| == |path| + 1 && path <= p :: p[|path|];
      ghost var all := rest;
      assert all == Names(nodes, path);
      while |names| < n && rest != {}
        invariant |names| <= n && rest <= all
        invariant forall name :: name in all <==> name in rest || name in names
        invariant forall name :: name in rest ==> name !in names
        invariant forall i, j :: 0 <= i < j < |names| ==> names[i] != names[j]
        invariant names == [] ==> rest == all
        decreases |rest|
      {
        var name :| name in rest;
        rest := rest - {name};
        names := names + [name];
      }
      forall name ensures name in all <==> IsChild(nodes, path, name) {
        NamesAreChildren(nodes, path, name);
      }
    }

    /** os.Remove: refuses a directory that still has entries. */
    method Remove(path: Path) returns (ok: bool)
      requires Tree(nodes) && path in nodes
      modifies this`nodes
      ensures ok <==> path !in badRemove && IsLeaf(old(nodes), path)
      ensures nodes == if ok then old(nodes) - {path} else old(nodes)
    {
      var entries := ReadDirNames(path, 1);
      if entries != [] {
        assert IsChild(nodes, path, entries[0]);
      }
      if path in badRemove || entries != [] { return false; }
      nodes := nodes - {path};
      return true;
    }

    /** removeTree. `left` is what remains of the shared budget. */
    method RemoveTree(path: Path, remaining: int) returns (left: int, complete: bool, failed: bool)
      requires Tree(nodes)
      modifies this
      ensures Outcome(old(nodes), nodes, path, remaining, left, complete, failed, Quiet(path, old(patience), remaining))
      ensures visited - old(visited) == remaining - left
      ensures removedFiles - old(removedFiles) == |old(nodes)| - |nodes|
      ensures removedBytes - old(removedBytes) == Bytes(old(nodes)) - Bytes(nodes)
      ensures Quiet(path, old(patience), remaining) && complete ==> patience >= old(patience) - (remaining - left)
      decreases if remaining < 0 then 0 else remaining, 1
    {
      hide Outcome, Underway, Pruned, Tree, NoLeafWithin, HeightAtMost, Gone, Under, Bytes;
      ghost var before, quiet := nodes, Quiet(path, patience, remaining);
      left, complete, failed := remaining, false, false;
      if patience == 0 {
        NothingDone(before, path, remaining, true, quiet);
        return left, false, true;
      }
      patience := patience - 1;
      if remaining <= 0 {
        NothingDone(before, path, remaining, false, quiet);
        return;
      }
      left := remaining - 1;
      visited := visited + 1;
      if path !in nodes {
        AlreadyGone(before, path, remaining, quiet);
        return left, true, false;
      }
      Keeps(before, path);
      if path in badStat {
        NodeKept(before, before, path, left, left);
        return left, false, true;
      }
      var names: seq<string> := [];
      if nodes[path].kind != Dir {
        PlainNodeIsLeaf(nodes, path);
      } else {
        if path in badOpen {
          NodeKept(before, before, path, left, left);
          return left, false, true;
        }
        names := ReadDirNames(path, left + 1);
      }
      left, complete, failed := RemoveNames(path, names, left, quiet);
    }

    /** The second half of removeTree: the children read, one by one, then the node itself. */
    method RemoveNames(path: Path, names: seq<string>, budget: int, ghost quiet: bool)
      returns (left: int, complete: bool, failed: bool)
      requires Tree(nodes) && path in nodes && budget >= 0 && Listing(nodes, path, names)
      requires |names| < budget + 1 ==> forall name :: IsChild(nodes, path, name) ==> name in names
      requires names == [] ==> IsLeaf(nodes, path)
      requires quiet ==> Quiet(path, patience, budget)
      modifies this
      ensures Outcome(old(nodes), nodes, path, budget + 1, left, complete, failed, quiet)
      ensures visited - old(visited) == budget - left
      ensures removedFiles - old(removedFiles) == |old(nodes)| - |nodes|
      ensures removedBytes - old(removedBytes) == Bytes(old(nodes)) - Bytes(nodes)
      ensures quiet && complete ==> patience >= old(patience) - (budget - left)
      decreases budget, 2
    {
      hide Outcome, Pruned, Tree, NoLeafWithin, HeightAtMost, Gone, Under, Bytes, Underway, Untouched, Quiet, Listing,
           FreedSize, IsLeaf, Remaining, Names, Faultless, QuietOutcome;
      ghost var before := nodes;
      left := budget;
      StartOfLoop(before, path, names, budget, quiet);
      for i := 0 to |names|
        invariant Tree(nodes) && Underway(before, nodes, path, names, i, budget, left, quiet)
        invariant 0 <= left <= budget - i
        invariant visited - old(visited) == budget - left
        invariant removedFiles - old(removedFiles) == |before| - |nodes|
        invariant removedBytes - old(removedBytes) == Bytes(before) - Bytes(nodes)
        invariant quiet ==> patience >= old(patience) - (budget - left)
      {
        ghost var mid, was := nodes, left;
        var child := path + [names[i]];
        ghost var still := Quiet(child, patience, left);
        if quiet { StillQuiet(path, child, old(patience), budget, patience, left); }
        left, complete, failed := RemoveTree(child, left);
        CalmerOutcome(mid, nodes, child, was, left, complete, failed, still, quiet);
        if !complete || failed {
          ChildStopped(before, mid, nodes, path, names, i, budget, was, left, failed, quiet);
          return left, false, failed;
        }
        ChildDone(before, mid, nodes, path, names, i, budget, was, left, quiet);
        UnderwayFacts(before, nodes, path, names, i + 1, budget, left, quiet);
      }
      NamesExhausted(before, nodes, path, names, budget, left, quiet);
      ghost var now := nodes;
      UnderwayFacts(before, nodes, path, names, |names|, budget, left, quiet);
      var size := FreedSize(nodes[path]);
      BytesWithout(nodes, path);
      var ok := Remove(path);
      if !ok {
        if quiet { QuietRemovable(path, old(patience), budget); }
        NodeKept(before, now, path, budget, left);
        return left, false, true;
      }
      NodeRemoved(before, now, path, budget, left, quiet);
      removedFiles := removedFiles + 1;
      removedBytes := removedBytes + size;
      return left, true, false;
    }
  }

  // ------------------------------------------------------------ nested directories

  /** Directories nested one in another, with nothing beside them. */
  ghost predicate Chain(nodes: Nodes, path: Path) {
    forall p, q :: p in nodes && q in nodes && path <= p && path <= q ==> p <= q || q <= p
  }

  lemma TallChainHasNoLeaf(nodes: Nodes, path: Path, h: int)
    requires Tree(nodes) && Chain(nodes, path) && !HeightAtMost(nodes, path, h)
    ensures NoLeafWithin(nodes, path, h)
  {
    var deep :| deep in nodes && path <= deep && |deep| - |path| >= h;
    forall q | q in nodes && path <= q && |q| - |path| < h ensures nodes[q].kind == Dir && !IsLeaf(nodes, q) {
      assert q <= deep;
      AncestorHasChild(nodes, q, deep);
    }
  }

  lemma AncestorHasChild(nodes: Nodes, q: Path, deep: Path)
    requires Tree(nodes) && deep in nodes && q < deep
    ensures q in nodes && nodes[q].kind == Dir && !IsLeaf(nodes, q)
  {
    assert deep[..|q|] == q;
    AncestorsStand(nodes, deep, |q|);
    ChildOnTheWay(nodes, q, deep);
  }

  /** On a chain a quiet pass makes progress exactly when the chain is no longer than the
      budget: a deeper one is visited in vain, pass after pass. */
  lemma ChainProgressIff(before: Nodes, after: Nodes, path: Path, budget: int, left: int, complete: bool, failed: bool)
    requires Tree(before) && path in before && Chain(before, path)
    requires Outcome(before, after, path, budget, left, complete, failed, true)
    ensures |after| < |before| <==> HeightAtMost(before, path, budget)
    ensures !HeightAtMost(before, path, budget) ==> after == before && left == 0
  {
    if !HeightAtMost(before, path, budget) {
      TallChainHasNoLeaf(before, path, budget);
    }
    hide Tree, Pruned, Gone, HeightAtMost, NoLeafWithin, Chain;
  }

  // ----------------------------------------------------------------- cleanDirectory

  predicate Matches(name: string, prefixes: seq<string>, suffixes: seq<string>) {
    || (exists i :: 0 <= i < |prefixes| && HasPrefix(name, prefixes[i]))
    || (exists i :: 0 <= i < |suffixes| && |suffixes[i]| <= |name| && name[|name| - |suffixes[i]|..] == suffixes[i])
  }

  /** A name matches when it is one of the prefixes with something behind it, or one of the
      suffixes with something before it. */
  lemma MatchesIff(name: string, prefixes: seq<string>, suffixes: seq<string>)
    ensures Matches(name, prefixes, suffixes) <==>
      exists p, rest: string :: (p in prefixes && name == p + rest) || (p in suffixes && name == rest + p)
  {
    if Matches(name, prefixes, suffixes) {
      if i :| 0 <= i < |prefixes| && HasPrefix(name, prefixes[i]) {
        assert name == prefixes[i] + name[|prefixes[i]|..];
      } else {
        var i :| 0 <= i < |suffixes| && |suffixes[i]| <= |name| && name[|name| - |suffixes[i]|..] == suffixes[i];
        assert name == name[..|name| - |suffixes[i]|] + suffixes[i];
      }
    }
    forall p, rest: string | p in prefixes && name == p + rest ensures Matches(name, prefixes, suffixes) {
      assert HasPrefix(name, p);
    }
    forall p, rest: string | p in suffixes && name == rest + p ensures Matches(name, prefixes, suffixes) {
      assert name[|name| - |p|..] == p;
    }
  }

  type Active = map<Path, nat>

  /** An unfinished tree: where it is and which directory it was. */
  datatype Memory = Memory(path: Path, inode: nat)

  /** A cleanup rule: which names of which directory are disposable, and the tree whose
      removal ran out of budget, by path and identity. */
  class Rule {
    const dir: Path
    const prefixes: seq<string>
    const suffixes: seq<string>
    const dirs: bool
    var pending: Option<Path>
    var pendingInode: nat

    constructor (dir: Path, prefixes: seq<string>, suffixes: seq<string>, dirs: bool)
      ensures this.dir == dir && this.prefixes == prefixes && this.suffixes == suffixes && this.dirs == dirs
      ensures pending == None
    {
      this.dir, this.prefixes, this.suffixes, this.dirs := dir, prefixes, suffixes, dirs;
      pending, pendingInode := None, 0;
    }

    /** The entry may go: unprotected, old enough, and of a kind the rule covers. */
    ghost predicate Disposable(nodes: Nodes, active: Active, cutoff: int, name: string) {
      var top := dir + [name];
      && Matches(name, prefixes, suffixes)
      && top in nodes && !Protected(active, top) && nodes[top].mtime <= cutoff
      && (nodes[top].kind == Regular || nodes[top].kind == Pipe || (nodes[top].kind == Dir && dirs))
    }

    /** The tree to go on with in the next pass, if there is one. */
    ghost function Remembered(): Option<Memory>
      reads this
    {
      if pending.Some? then Some(Memory(pending.value, pendingInode)) else None
    }
  }

  /** The pending tree may be gone on with: still the same directory, and unprotected. */
  ghost predicate Resumable(nodes: Nodes, active: Active, was: Option<Memory>) {
    && was.Some? && was.value.path in nodes
    && nodes[was.value.path].inode == was.value.inode && !Protected(active, was.value.path)
  }

  /** The node lay in the tree that could be resumed, or in an entry that was disposable,
      when the lock was held for it. */
  ghost predicate MayGo(rule: Rule, before: Nodes, cutoff: int, names: seq<string>, active: seq<Active>,
                        was: Option<Memory>, p: Path)
    requires |active| == |names| + 1
  {
    || (Resumable(before, active[0], was) && was.value.path <= p)
    || exists i :: 0 <= i < |names| && DisposableAt(rule, before, cutoff, names[i], active[i + 1], p)
  }

  ghost predicate DisposableAt(rule: Rule, before: Nodes, cutoff: int, name: string, active: Active, p: Path) {
    rule.Disposable(before, active, cutoff, name) && rule.dir + [name] <= p
  }

  /** Some nodes went, each of which was allowed to; the rest is as it was. */
  ghost predicate Cleaned(rule: Rule, before: Nodes, after: Nodes, cutoff: int, names: seq<string>,
                          active: seq<Active>, was: Option<Memory>)
    requires |active| == |names| + 1
  {
    && Tree(after)
    && (forall p :: p in after ==> p in before && after[p] == before[p])
    && (forall p :: p in before && p !in after ==> MayGo(rule, before, cutoff, names, active, was, p))
  }

  /** The entry ends the pass: it cannot be examined, or it is disposable and either a
      directory or impossible to remove. */
  ghost predicate Stops(fs: FileSystem, rule: Rule, nodes: Nodes, cutoff: int, name: string, active: Active) {
    var top := rule.dir + [name];
    && Matches(name, rule.prefixes, rule.suffixes) && top in nodes
    && (top in fs.badStat
        || (rule.Disposable(nodes, active, cutoff, name) && (nodes[top].kind == Dir || top in fs.badRemove)))
  }

  /** The entry is a single disposable node that goes without ending the pass. */
  ghost predicate Goes(fs: FileSystem, rule: Rule, nodes: Nodes, cutoff: int, name: string, active: Active) {
    var top := rule.dir + [name];
    rule.Disposable(nodes, active, cutoff, name) && nodes[top].kind != Dir && top !in fs.badStat && top !in fs.badRemove
  }

  ghost function Trimmed(fs: FileSystem, rule: Rule, nodes: Nodes, cutoff: int, name: string, active: Active): Nodes {
    if Goes(fs, rule, nodes, cutoff, name, active) then nodes - {rule.dir + [name]} else nodes
  }

  /** A removal of at most one budget, after which the tree is remembered exactly as long
      as it is not complete: by its path and by the identity it had. */
  ghost predicate Worked(fs: FileSystem, before: Nodes, after: Nodes, top: Path, patience: nat, failed: bool,
                         kept: Option<Memory>)
    requires top in before
  {
    exists left, complete ::
      && Outcome(before, after, top, TREE_NODES, left, complete, failed, fs.Quiet(top, patience, TREE_NODES))
      && kept == if complete then None else Some(Memory(top, before[top].inode))
  }

  /** What an entry that ends the pass leaves behind. */
  ghost predicate Stopped(fs: FileSystem, before: Nodes, after: Nodes, top: Path, patience: nat, failed: bool,
                          kept: Option<Memory>)
    requires top in before
  {
    if top !in fs.badStat && before[top].kind == Dir then Worked(fs, before, after, top, patience, failed, kept)
    else after == before && failed && kept == None
  }

  /** A file or pipe nobody needs any more, which the file system lets go. */
  ghost predicate Removable(fs: FileSystem, nodes: Nodes, top: Path, active: Active, cutoff: int) {
    && top in nodes && (nodes[top].kind == Regular || nodes[top].kind == Pipe) && nodes[top].mtime <= cutoff
    && (forall a :: a in active ==> !Clashes(PathString(top), PathString(a)))
    && top !in fs.badStat && top !in fs.badRemove
  }

  /** The lock-held part for one matching entry. */
  method CleanEntry(fs: FileSystem, rule: Rule, cutoff: int, name: string, active: Active)
    returns (stop: bool, failed: bool)
    requires Tree(fs.nodes) && Matches(name, rule.prefixes, rule.suffixes) && rule.pending == None
    modifies fs, rule
    ensures stop <==> Stops(fs, rule, old(fs.nodes), cutoff, name, active)
    ensures stop ==>
      Stopped(fs, old(fs.nodes), fs.nodes, rule.dir + [name], old(fs.patience), failed, rule.Remembered())
    ensures !stop ==> !failed && rule.pending == None && fs.patience == old(fs.patience)
    ensures !stop ==> fs.nodes == Trimmed(fs, rule, old(fs.nodes), cutoff, name, active)
    ensures Pruned(old(fs.nodes), fs.nodes, rule.dir + [name])
    ensures fs.nodes != old(fs.nodes) ==> rule.Disposable(old(fs.nodes), active, cutoff, name)
    // in the fields: what goes is old enough, leased by nobody and of a kind the rule covers
    ensures fs.nodes != old(fs.nodes) ==>
      var node := old(fs.nodes)[rule.dir + [name]];
      && node.mtime <= cutoff && (node.kind == Regular || node.kind == Pipe || (node.kind == Dir && rule.dirs))
      && forall a :: a in active ==> !Clashes(PathString(rule.dir + [name]), PathString(a))
    // and a plain file or pipe of which this holds goes, and goes alone
    ensures Removable(fs, old(fs.nodes), rule.dir + [name], active, cutoff) ==>
      !stop && fs.nodes == old(fs.nodes) - {rule.dir + [name]}
    // a tree that lost something and still stands is remembered
    ensures fs.nodes != old(fs.nodes) && rule.dir + [name] in fs.nodes ==>
      rule.Remembered() == Some(Memory(rule.dir + [name], fs.nodes[rule.dir + [name]].inode))
    ensures 0 <= fs.visited - old(fs.visited) <= if stop then TREE_NODES else 0
    ensures fs.removedFiles - old(fs.removedFiles) == |old(fs.nodes)| - |fs.nodes|
    ensures fs.removedBytes - old(fs.removedBytes) == Bytes(old(fs.nodes)) - Bytes(fs.nodes)
  {
    hide Tree, Bytes, Pruned, Protected, Matches, Outcome;
    var path := rule.dir + [name];
    ghost var before, patience := fs.nodes, fs.patience;
    ProtectedIff(active, path);
    Keeps(fs.nodes, path);
    if path !in fs.nodes { return false, false; }
    if path in fs.badStat { return true, true; }
    var node := fs.nodes[path];
    if Protected(active, path) || node.mtime > cutoff || node.kind.Symlink? || (node.kind == Dir && !rule.dirs) {
      return false, false;
    }
    if node.kind == Dir {
      var left, complete;
      left, complete, failed := fs.RemoveTree(path, TREE_NODES);
      OutcomeFacts(before, fs.nodes, path, TREE_NODES, left, complete, failed, fs.Quiet(path, patience, TREE_NODES));
      if !complete {
        rule.pending, rule.pendingInode := Some(path), node.inode;
      }
      return true, failed;
    }
    if node.kind == Regular || node.kind == Pipe {
      PlainNodeIsLeaf(fs.nodes, path);
      LeafRemoved(fs.nodes, path);
      BytesWithout(fs.nodes, path);
      var ok := fs.Remove(path);
      if !ok { return true, true; }
      fs.removedFiles, fs.removedBytes := fs.removedFiles + 1, fs.removedBytes + node.size;
    }
    return false, false;
  }

  /** A directory of the way to the rule's own: there, readable, and no symlink. */
  ghost predicate StandsAt(fs: FileSystem, nodes: Nodes, p: Path) {
    p in nodes && p !in fs.badStat && nodes[p].kind == Dir
  }

  ghost predicate Reached(fs: FileSystem, nodes: Nodes, dir: Path) {
    forall k :: 0 < k <= |dir| ==> StandsAt(fs, nodes, dir[..k])
  }

  /** The walk up from the directory first meets a node it cannot examine. */
  ghost predicate WayFails(fs: FileSystem, nodes: Nodes, dir: Path) {
    exists k :: 0 < k <= |dir| && FailsAt(fs, nodes, dir, k)
  }

  ghost predicate FailsAt(fs: FileSystem, nodes: Nodes, dir: Path, k: int)
    requires 0 < k <= |dir|
  {
    dir[..k] in nodes && dir[..k] in fs.badStat && forall j :: k < j <= |dir| ==> StandsAt(fs, nodes, dir[..j])
  }

  /** Whether the rule's directory can be reached without passing a symlink. */
  method Reachable(fs: FileSystem, dir: Path) returns (ok: bool, failed: bool)
    ensures ok <==> Reached(fs, fs.nodes, dir)
    ensures failed <==> WayFails(fs, fs.nodes, dir)
  {
    var k := |dir|;
    while k > 0
      invariant 0 <= k <= |dir|
      invariant forall j :: k < j <= |dir| ==> StandsAt(fs, fs.nodes, dir[..j])
    {
      var up := dir[..k];
      if up !in fs.nodes {
        assert !StandsAt(fs, fs.nodes, dir[..k]);
        return false, false;
      }
      if up in fs.badStat {
        assert FailsAt(fs, fs.nodes, dir, k) && !StandsAt(fs, fs.nodes, dir[..k]);
        return false, true;
      }
      if fs.nodes[up].kind != Dir {
        assert !StandsAt(fs, fs.nodes, dir[..k]);
        return false, false;
      }
      k := k - 1;
    }
    return true, false;
  }

  lemma EntryCleaned(rule: Rule, before: Nodes, mid: Nodes, now: Nodes, cutoff: int, names: seq<string>,
                     active: seq<Active>, was: Option<Memory>, i: nat)
    requires i < |names| && |active| == |names| + 1
    requires Cleaned(rule, before, mid, cutoff, names, active, was)
    requires Pruned(mid, now, rule.dir + [names[i]]) &&
      (now != mid ==> rule.Disposable(mid, active[i + 1], cutoff, names[i]))
    ensures Cleaned(rule, before, now, cutoff, names, active, was)
  {
    hide Tree, DisposableAt, Rule.Disposable, Resumable;
    forall p | p in before && p !in now ensures MayGo(rule, before, cutoff, names, active, was, p) {
      if p in mid {
        StillDisposable(rule, before, mid, cutoff, names[i], active[i + 1], p);
      }
    }
  }

  lemma StillDisposable(rule: Rule, before: Nodes, mid: Nodes, cutoff: int, name: string, active: Active, p: Path)
    requires rule.Disposable(mid, active, cutoff, name) && rule.dir + [name] <= p
    requires forall q :: q in mid ==> q in before && mid[q] == before[q]
    ensures DisposableAt(rule, before, cutoff, name, active, p)
  {
    hide Protected, Matches;
  }

  lemma NothingCleaned(rule: Rule, before: Nodes, cutoff: int, names: seq<string>, active: seq<Active>,
                       was: Option<Memory>)
    requires |active| == |names| + 1 && Tree(before)
    ensures Cleaned(rule, before, before, cutoff, names, active, was)
  {
  }

  lemma PendingCleaned(rule: Rule, before: Nodes, now: Nodes, cutoff: int, names: seq<string>,
                       active: seq<Active>, was: Option<Memory>)
    requires |active| == |names| + 1
    requires Resumable(before, active[0], was) && Pruned(before, now, was.value.path)
    ensures Cleaned(rule, before, now, cutoff, names, active, was)
  {
    hide Tree, Protected;
  }

  /** The first k entries without any that ends the pass: the single nodes that went. */
  ghost function Files(fs: FileSystem, rule: Rule, nodes: Nodes, cutoff: int, names: seq<string>,
                       active: seq<Active>, k: nat): set<Path>
    requires |active| == |names| + 1 && k <= |names|
  {
    set i | 0 <= i < k && Goes(fs, rule, nodes, cutoff, names[i], active[i + 1]) :: rule.dir + [names[i]]
  }

  /** The pass got past the first k entries. */
  ghost predicate Passed(fs: FileSystem, rule: Rule, before: Nodes, mid: Nodes, cutoff: int, names: seq<string>,
                         active: seq<Active>, k: nat)
    requires |active| == |names| + 1 && k <= |names|
  {
    && (forall i :: 0 <= i < k ==> !Stops(fs, rule, before, cutoff, names[i], active[i + 1]))
    && mid == before - Files(fs, rule, before, cutoff, names, active, k)
  }

  /** How the loop over the entries ends: behind the last, at an entry that ends the pass,
      or with the context cancelled. */
  ghost predicate EntriesResult(fs: FileSystem, rule: Rule, before: Nodes, after: Nodes, cutoff: int,
                                names: seq<string>, active: seq<Active>, patience: nat, failed: bool,
                                kept: Option<Memory>)
    requires |active| == |names| + 1
  {
    exists k, mid ::
      && 0 <= k <= |names| && k <= patience && Passed(fs, rule, before, mid, cutoff, names, active, k)
      && EndsAt(fs, rule, mid, after, cutoff, names, active, k, patience - k, failed, kept)
  }

  ghost predicate EndsAt(fs: FileSystem, rule: Rule, mid: Nodes, after: Nodes, cutoff: int,
                         names: seq<string>, active: seq<Active>, k: nat, patience: nat, failed: bool,
                         kept: Option<Memory>)
    requires |active| == |names| + 1 && k <= |names|
  {
    if k == |names| then after == mid && !failed && kept == None
    else if patience == 0 then after == mid && failed && kept == None
    else
      && Stops(fs, rule, mid, cutoff, names[k], active[k + 1])
      && Stopped(fs, mid, after, rule.dir + [names[k]], patience - 1, failed, kept)
  }

  /** What one pass does. A pending tree that still is the one remembered, and is not
      protected, is gone on with and nothing else is touched; otherwise it is forgotten and
      the entries are gone through. */
  ghost predicate PassResult(fs: FileSystem, rule: Rule, before: Nodes, after: Nodes, cutoff: int, names: seq<string>,
                             active: seq<Active>, patience: nat, was: Option<Memory>, failed: bool,
                             kept: Option<Memory>)
    requires |active| == |names| + 1
  {
    if !Reached(fs, before, rule.dir) then
      after == before && kept == was && (failed <==> WayFails(fs, before, rule.dir))
    else if was.Some? && was.value.path in before && was.value.path in fs.badStat then
      after == before && kept == was && failed
    else if Resumable(before, active[0], was) then Worked(fs, before, after, was.value.path, patience, failed, kept)
    else EntriesResult(fs, rule, before, after, cutoff, names, active, patience, failed, kept)
  }

  lemma NonePassed(fs: FileSystem, rule: Rule, before: Nodes, cutoff: int, names: seq<string>, active: seq<Active>)
    requires |active| == |names| + 1
    ensures Passed(fs, rule, before, before, cutoff, names, active, 0)
  {
    assert Files(fs, rule, before, cutoff, names, active, 0) == {};
  }

  /** An entry still standing is judged as at the start of the pass; one that is gone went
      as a single removable node, so it ends no pass. */
  lemma JudgedAlike(fs: FileSystem, rule: Rule, before: Nodes, mid: Nodes, cutoff: int, names: seq<string>,
                    active: seq<Active>, i: nat)
    requires |active| == |names| + 1 && i < |names| && Passed(fs, rule, before, mid, cutoff, names, active, i)
    ensures Stops(fs, rule, before, cutoff, names[i], active[i + 1]) <==>
      Stops(fs, rule, mid, cutoff, names[i], active[i + 1])
    ensures Goes(fs, rule, mid, cutoff, names[i], active[i + 1]) ==>
      Goes(fs, rule, before, cutoff, names[i], active[i + 1])
    ensures Goes(fs, rule, before, cutoff, names[i], active[i + 1]) ==>
      Goes(fs, rule, mid, cutoff, names[i], active[i + 1]) || rule.dir + [names[i]] !in mid
  {
    hide Protected, Matches;
    var top := rule.dir + [names[i]];
    if top in before && top !in mid {
      var j :| 0 <= j < i && Goes(fs, rule, before, cutoff, names[j], active[j + 1]) && rule.dir + [names[j]] == top;
    }
  }

  lemma OneMorePassed(fs: FileSystem, rule: Rule, before: Nodes, mid: Nodes, now: Nodes, cutoff: int,
                      names: seq<string>, active: seq<Active>, i: nat)
    requires |active| == |names| + 1 && i < |names| && Passed(fs, rule, before, mid, cutoff, names, active, i)
    requires !Stops(fs, rule, mid, cutoff, names[i], active[i + 1])
    requires now == Trimmed(fs, rule, mid, cutoff, names[i], active[i + 1])
    ensures Passed(fs, rule, before, now, cutoff, names, active, i + 1)
  {
    JudgedAlike(fs, rule, before, mid, cutoff, names, active, i);
    hide Stops, Goes;
    var top := rule.dir + [names[i]];
    var was := Files(fs, rule, before, cutoff, names, active, i);
    var files := Files(fs, rule, before, cutoff, names, active, i + 1);
    assert files == was + if Goes(fs, rule, before, cutoff, names[i], active[i + 1]) then {top} else {};
  }

  lemma EntriesEnd(fs: FileSystem, rule: Rule, before: Nodes, mid: Nodes, after: Nodes, cutoff: int, names: seq<string>,
                   active: seq<Active>, patience: nat, k: nat, failed: bool, kept: Option<Memory>)
    requires |active| == |names| + 1 && k <= |names| && k <= patience
    requires Passed(fs, rule, before, mid, cutoff, names, active, k)
    requires EndsAt(fs, rule, mid, after, cutoff, names, active, k, patience - k, failed, kept)
    ensures EntriesResult(fs, rule, before, after, cutoff, names, active, patience, failed, kept)
  {
    hide Passed, EndsAt;
  }

  /** One turn of the loop over the entries. */
  method NextEntry(fs: FileSystem, rule: Rule, cutoff: int, names: seq<string>, active: seq<Active>, i: nat,
                   ghost before: Nodes, ghost patience: nat, ghost was: Option<Memory>)
    returns (stop: bool, failed: bool)
    requires Tree(fs.nodes) && i < |names| && |active| == |names| + 1 && rule.pending == None
    requires Cleaned(rule, before, fs.nodes, cutoff, names, active, was)
    requires Passed(fs, rule, before, fs.nodes, cutoff, names, active, i) && i + fs.patience == patience
    modifies fs, rule
    ensures Tree(fs.nodes) && Cleaned(rule, before, fs.nodes, cutoff, names, active, was)
    ensures stop ==>
      EntriesResult(fs, rule, before, fs.nodes, cutoff, names, active, patience, failed, rule.Remembered())
    ensures !stop ==> Passed(fs, rule, before, fs.nodes, cutoff, names, active, i + 1)
    ensures !stop ==> rule.pending == None && i + 1 + fs.patience == patience
    ensures fs.visited - old(fs.visited) <= if stop then 1 + TREE_NODES else 1
    ensures fs.removedFiles - old(fs.removedFiles) == |old(fs.nodes)| - |fs.nodes|
    ensures fs.removedBytes - old(fs.removedBytes) == Bytes(old(fs.nodes)) - Bytes(fs.nodes)
  {
    hide Tree, Bytes, Pruned, Protected, Matches, Cleaned, Outcome, Passed, Stops, Goes, Stopped, Trimmed,
         Rule.Disposable, EntriesResult;
    ghost var mid := fs.nodes;
    if fs.patience == 0 {
      EntriesEnd(fs, rule, before, mid, mid, cutoff, names, active, patience, i, true, None);
      return true, true;
    }
    fs.patience := fs.patience - 1;
    fs.visited := fs.visited + 1;
    if !Matches(names[i], rule.prefixes, rule.suffixes) {
      UnmatchedPasses(fs, rule, mid, cutoff, names[i], active[i + 1]);
      OneMorePassed(fs, rule, before, mid, mid, cutoff, names, active, i);
      return false, false;
    }
    stop, failed := CleanEntry(fs, rule, cutoff, names[i], active[i + 1]);
    EntryCleaned(rule, before, mid, fs.nodes, cutoff, names, active, was, i);
    CleanedFacts(rule, before, mid, fs.nodes, cutoff, names, active, was);
    if stop {
      EntriesEnd(fs, rule, before, mid, fs.nodes, cutoff, names, active, patience, i, failed, rule.Remembered());
    } else {
      OneMorePassed(fs, rule, before, mid, fs.nodes, cutoff, names, active, i);
    }
  }

  /** The loop over the entries. */
  method CleanEntries(fs: FileSystem, rule: Rule, cutoff: int, names: seq<string>, active: seq<Active>,
                      ghost was: Option<Memory>)
    returns (failed: bool)
    requires Tree(fs.nodes) && |names| <= ENTRIES && |active| == |names| + 1 && rule.pending == None
    modifies fs, rule
    ensures EntriesResult(fs, rule, old(fs.nodes), fs.nodes, cutoff, names, active, old(fs.patience), failed,
                          rule.Remembered())
    ensures Cleaned(rule, old(fs.nodes), fs.nodes, cutoff, names, active, was)
    ensures fs.visited - old(fs.visited) <= ENTRIES + TREE_NODES
    ensures fs.removedFiles - old(fs.removedFiles) == |old(fs.nodes)| - |fs.nodes|
    ensures fs.removedBytes - old(fs.removedBytes) == Bytes(old(fs.nodes)) - Bytes(fs.nodes)
  {
    hide Tree, Bytes, Cleaned, Passed, EntriesResult;
    ghost var before, patience := fs.nodes, fs.patience;
    NothingCleaned(rule, before, cutoff, names, active, was);
    NonePassed(fs, rule, before, cutoff, names, active);
    for i := 0 to |names|
      invariant Cleaned(rule, before, fs.nodes, cutoff, names, active, was) && Tree(fs.nodes)
      invariant Passed(fs, rule, before, fs.nodes, cutoff, names, active, i)
      invariant i + fs.patience == patience
      invariant fs.visited - old(fs.visited) <= i
      invariant fs.removedFiles - old(fs.removedFiles) == |before| - |fs.nodes|
      invariant fs.removedBytes - old(fs.removedBytes) == Bytes(before) - Bytes(fs.nodes)
      invariant rule.pending == None
    {
      var stop;
      stop, failed := NextEntry(fs, rule, cutoff, names, active, i, before, patience, was);
      if stop { return failed; }
    }
    EntriesEnd(fs, rule, before, fs.nodes, fs.nodes, cutoff, names, active, patience, |names|, false, None);
    return false;
  }

  lemma UnmatchedPasses(fs: FileSystem, rule: Rule, nodes: Nodes, cutoff: int, name: string, active: Active)
    requires !Matches(name, rule.prefixes, rule.suffixes)
    ensures !Stops(fs, rule, nodes, cutoff, name, active) && Trimmed(fs, rule, nodes, cutoff, name, active) == nodes
  {
  }

  /** cleanDirectory. `names` are the entries the directory reader delivers this time, and
      `active` the leases found each time the lock is taken: once for the pending tree and
      once for each entry. */
  method CleanDirectory(fs: FileSystem, rule: Rule, cutoff: int, names: seq<string>, active: seq<Active>)
    returns (failed: bool)
    requires Tree(fs.nodes) && |names| <= ENTRIES && |active| == |names| + 1
    modifies fs, rule
    ensures PassResult(fs, rule, old(fs.nodes), fs.nodes, cutoff, names, active,
                       old(fs.patience), old(rule.Remembered()), failed, rule.Remembered())
    ensures Cleaned(rule, old(fs.nodes), fs.nodes, cutoff, names, active, old(rule.Remembered()))
    ensures fs.visited - old(fs.visited) <= ENTRIES + TREE_NODES
    ensures fs.removedFiles - old(fs.removedFiles) == |old(fs.nodes)| - |fs.nodes|
    ensures fs.removedBytes - old(fs.removedBytes) == Bytes(old(fs.nodes)) - Bytes(fs.nodes)
  {
    hide Tree, Bytes, Pruned, Protected, Cleaned, Outcome, Reached, WayFails, EntriesResult;
    ghost var before, was, patience := fs.nodes, rule.Remembered(), fs.patience;
    NothingCleaned(rule, before, cutoff, names, active, was);
    var reached;
    reached, failed := Reachable(fs, rule.dir);
    if !reached { return; }
    if rule.pending.Some? {
      var path := rule.pending.value;
      if path in fs.nodes && path in fs.badStat { return true; }
      if path in fs.nodes && fs.nodes[path].inode == rule.pendingInode && !Protected(active[0], path) {
        var left, complete;
        left, complete, failed := fs.RemoveTree(path, TREE_NODES);
        OutcomeFacts(before, fs.nodes, path, TREE_NODES, left, complete, failed, fs.Quiet(path, patience, TREE_NODES));
        PendingCleaned(rule, before, fs.nodes, cutoff, names, active, was);
        if complete {
          rule.pending := None;
        }
        return;
      }
      rule.pending := None;
    }
    failed := CleanEntries(fs, rule, cutoff, names, active, was);
  }

  /** The rule's directory and all above it are directories that can be examined. */
  ghost predicate WayIsClear(fs: FileSystem, nodes: Nodes, dir: Path) {
    forall k :: 0 < k <= |dir| ==> dir[..k] in nodes && dir[..k] !in fs.badStat && nodes[dir[..k]].kind == Dir
  }

  /** The entry is a directory the rule may remove, or cannot be dealt with. */
  ghost predicate HoldsUp(fs: FileSystem, rule: Rule, nodes: Nodes, cutoff: int, name: string, active: Active) {
    var top := rule.dir + [name];
    && Matches(name, rule.prefixes, rule.suffixes) && top in nodes
    && (top in fs.badStat
        || (nodes[top].mtime <= cutoff && (forall a :: a in active ==> !Clashes(PathString(top), PathString(a)))
            && ((nodes[top].kind == Dir && rule.dirs)
                || ((nodes[top].kind == Regular || nodes[top].kind == Pipe) && top in fs.badRemove))))
  }

  lemma HoldsUpStops(fs: FileSystem, rule: Rule, nodes: Nodes, cutoff: int, name: string, active: Active)
    ensures HoldsUp(fs, rule, nodes, cutoff, name, active) <==> Stops(fs, rule, nodes, cutoff, name, active)
    ensures Goes(fs, rule, nodes, cutoff, name, active) <==>
      Matches(name, rule.prefixes, rule.suffixes) && Removable(fs, nodes, rule.dir + [name], active, cutoff)
  {
    ProtectedIff(active, rule.dir + [name]);
    hide Protected, Matches, Clashes, PathString;
  }

  /** A pass in the fields themselves. Without a clear way, or with a pending tree that cannot
      be examined, nothing happens and nothing is forgotten. A pending tree that is another
      directory by now, or gone, or leased, is forgotten unless an entry of this pass takes its
      place; and when no entry holds it up and the context lasts, exactly the removable files
      among the names go. */
  lemma PassInFields(fs: FileSystem, rule: Rule, before: Nodes, after: Nodes, cutoff: int, names: seq<string>,
                     active: seq<Active>, patience: nat, was: Option<Memory>, failed: bool, kept: Option<Memory>)
    requires |active| == |names| + 1
    requires PassResult(fs, rule, before, after, cutoff, names, active, patience, was, failed, kept)
    ensures !WayIsClear(fs, before, rule.dir) ==> after == before && kept == was
    ensures WayIsClear(fs, before, rule.dir) && was.Some? && was.value.path in before &&
            was.value.path in fs.badStat ==>
      after == before && kept == was && failed
    ensures Afresh(fs, rule, before, active[0], was) && kept.Some? ==>
      exists i :: HoldsUpAt(fs, rule, before, cutoff, names, active, i) && kept.value.path == rule.dir + [names[i]]
    ensures Afresh(fs, rule, before, active[0], was) && patience >= |names| &&
            (forall i :: !HoldsUpAt(fs, rule, before, cutoff, names, active, i)) ==>
      !failed && kept == None &&
      forall p :: p in after <==> p in before && !Swept(fs, rule, before, cutoff, names, active, p)
  {
    assert WayIsClear(fs, before, rule.dir) <==> Reached(fs, before, rule.dir);
    assert MayResume(fs, before, active[0], was) <==> Resumable(before, active[0], was) by {
      if was.Some? { ProtectedIff(active[0], was.value.path); }
    }
    if Afresh(fs, rule, before, active[0], was) {
      hide Reached, Resumable, WayIsClear, MayResume, HoldsUp, EntriesResult;
      assert EntriesResult(fs, rule, before, after, cutoff, names, active, patience, failed, kept);
      EntriesInFields(fs, rule, before, after, cutoff, names, active, patience, failed, kept);
    }
  }

  /** Still the directory remembered, and leased by nobody. */
  ghost predicate MayResume(fs: FileSystem, nodes: Nodes, active: Active, was: Option<Memory>) {
    && was.Some? && was.value.path in nodes && nodes[was.value.path].inode == was.value.inode
    && forall a :: a in active ==> !Clashes(PathString(was.value.path), PathString(a))
  }

  /** The entries are gone through with no pending tree to go on with. */
  ghost predicate Afresh(fs: FileSystem, rule: Rule, nodes: Nodes, active: Active, was: Option<Memory>) {
    && WayIsClear(fs, nodes, rule.dir) && !MayResume(fs, nodes, active, was)
    && !(was.Some? && was.value.path in nodes && was.value.path in fs.badStat)
  }

  ghost predicate HoldsUpAt(fs: FileSystem, rule: Rule, nodes: Nodes, cutoff: int, names: seq<string>,
                            active: seq<Active>, i: int)
    requires |active| == |names| + 1
  {
    0 <= i < |names| && HoldsUp(fs, rule, nodes, cutoff, names[i], active[i + 1])
  }

  ghost predicate Swept(fs: FileSystem, rule: Rule, before: Nodes, cutoff: int, names: seq<string>,
                        active: seq<Active>, p: Path)
    requires |active| == |names| + 1
  {
    exists i :: 0 <= i < |names| && p == rule.dir + [names[i]] && Matches(names[i], rule.prefixes, rule.suffixes) &&
      Removable(fs, before, p, active[i + 1], cutoff)
  }

  lemma EntriesInFields(fs: FileSystem, rule: Rule, before: Nodes, after: Nodes, cutoff: int, names: seq<string>,
                        active: seq<Active>, patience: nat, failed: bool, kept: Option<Memory>)
    requires |active| == |names| + 1
    requires EntriesResult(fs, rule, before, after, cutoff, names, active, patience, failed, kept)
    ensures kept.Some? ==>
      exists i :: HoldsUpAt(fs, rule, before, cutoff, names, active, i) && kept.value.path == rule.dir + [names[i]]
    ensures patience >= |names| && (forall i :: !HoldsUpAt(fs, rule, before, cutoff, names, active, i)) ==>
      !failed && kept == None &&
      forall p :: p in after <==> p in before && !Swept(fs, rule, before, cutoff, names, active, p)
  {
    var k, mid :| 0 <= k <= |names| && k <= patience && Passed(fs, rule, before, mid, cutoff, names, active, k)
      && EndsAt(fs, rule, mid, after, cutoff, names, active, k, patience - k, failed, kept);
    forall i | 0 <= i < |names| {
      HoldsUpStops(fs, rule, before, cutoff, names[i], active[i + 1]);
    }
    if k < |names| {
      JudgedAlike(fs, rule, before, mid, cutoff, names, active, k);
      KeptIsThere(fs, mid, after, rule.dir + [names[k]], patience - k - 1, failed, kept);
      assert Stops(fs, rule, mid, cutoff, names[k], active[k + 1]) ==>
        HoldsUpAt(fs, rule, before, cutoff, names, active, k);
    }
    hide Stops, Goes, HoldsUp, Stopped, Removable, Matches;
    if k == |names| {
      assert forall p :: p in Files(fs, rule, before, cutoff, names, active, k) <==>
        Swept(fs, rule, before, cutoff, names, active, p);
    }
  }

  lemma KeptIsThere(fs: FileSystem, before: Nodes, after: Nodes, top: Path, patience: int, failed: bool,
                    kept: Option<Memory>)
    ensures patience >= 0 && top in before && Stopped(fs, before, after, top, patience, failed, kept) && kept.Some? ==>
      kept.value.path == top
  {
    hide Outcome;
  }

  // ------------------------------------------------------------ passes over a tree

  /** What is found at one pass of the maintenance worker. */
  datatype Turn = Turn(patience: nat, cutoff: int, names: seq<string>, active: seq<Active>)

  /** The pass can work on the tree at `path`: it is not protected then, and the context
      outlives the budget. */
  ghost predicate Workable(t: Turn, path: Path) {
    && |t.names| <= ENTRIES && |t.active| == |t.names| + 1
    && !Protected(t.active[0], path) && t.patience > TREE_NODES
  }

  /** The unfinished tree is the one remembered, can be reached and removed without a
      fault, and is no taller than the budget. */
  ghost predicate Unfinished(fs: FileSystem, rule: Rule, nodes: Nodes, kept: Option<Memory>, path: Path) {
    && Tree(nodes) && Reached(fs, nodes, rule.dir) && |rule.dir| < |path| && fs.Faultless(path)
    && path in nodes && kept == Some(Memory(path, nodes[path].inode)) && HeightAtMost(nodes, path, TREE_NODES)
  }

  /** One pass over an unfinished tree touches nothing else, takes at least one of its
      nodes, and leaves it either gone and forgotten or still unfinished and remembered;
      with at most 128 nodes it is gone. */
  lemma ResumedPassProgresses(fs: FileSystem, rule: Rule, before: Nodes, after: Nodes, t: Turn, failed: bool,
                              was: Option<Memory>, kept: Option<Memory>, path: Path)
    requires Unfinished(fs, rule, before, was, path) && Workable(t, path)
    requires PassResult(fs, rule, before, after, t.cutoff, t.names, t.active, t.patience, was, failed, kept)
    ensures Pruned(before, after, path) && !failed && |Under(after, path)| < |Under(before, path)|
    ensures if kept == None then Gone(after, path) else Unfinished(fs, rule, after, kept, path)
    ensures |Under(before, path)| <= TREE_NODES ==> kept == None
  {
    hide Tree, Protected, NoLeafWithin, EntriesResult, Under;
    assert path <= path;
    assert Worked(fs, before, after, path, t.patience, failed, kept);
    var quiet := fs.Quiet(path, t.patience, TREE_NODES);
    var left, complete :| Outcome(before, after, path, TREE_NODES, left, complete, failed, quiet)
      && kept == if complete then None else Some(Memory(path, before[path].inode));
    RemovedIsUnder(before, after, path);
    StillReached(fs, rule, before, after, path);
  }

  lemma StillReached(fs: FileSystem, rule: Rule, before: Nodes, after: Nodes, path: Path)
    requires Reached(fs, before, rule.dir) && |rule.dir| < |path| && Pruned(before, after, path)
    ensures Reached(fs, after, rule.dir)
  {
    hide Tree;
    forall k | 0 < k <= |rule.dir| ensures StandsAt(fs, after, rule.dir[..k]) {
      assert StandsAt(fs, before, rule.dir[..k]);
    }
  }

  /** Passes of the worker go on with an unfinished tree until it is gone and forgotten,
      in at most as many passes as it has nodes, and touch nothing else meanwhile. */
  method PassesUntilGone(fs: FileSystem, rule: Rule, path: Path, turns: seq<Turn>) returns (passes: nat)
    requires Unfinished(fs, rule, fs.nodes, rule.Remembered(), path)
    requires |Under(fs.nodes, path)| <= |turns| && forall i :: 0 <= i < |turns| ==> Workable(turns[i], path)
    modifies fs, rule
    ensures rule.pending == None && Gone(fs.nodes, path) && Pruned(old(fs.nodes), fs.nodes, path)
    ensures passes <= |Under(old(fs.nodes), path)|
    ensures |Under(old(fs.nodes), path)| <= TREE_NODES ==> passes == 1
  {
    hide Tree, Pruned, Under, Gone, PassResult, Unfinished, Cleaned, Bytes;
    ghost var before := fs.nodes;
    UnfinishedFacts(fs, rule, before, rule.Remembered(), path);
    passes := 0;
    while rule.pending != None
      invariant passes + |Under(fs.nodes, path)| <= |Under(before, path)|
      invariant Pruned(before, fs.nodes, path)
      invariant if rule.pending == None then Gone(fs.nodes, path)
                else Unfinished(fs, rule, fs.nodes, rule.Remembered(), path)
      invariant |Under(before, path)| <= TREE_NODES && passes > 0 ==> passes == 1 && rule.pending == None
      invariant passes == 0 ==> fs.nodes == before && rule.pending != None
      decreases |Under(fs.nodes, path)|
    {
      ghost var mid, was := fs.nodes, rule.Remembered();
      UnfinishedFacts(fs, rule, mid, was, path);
      var t := turns[passes];
      fs.patience := t.patience;
      var failed := CleanDirectory(fs, rule, t.cutoff, t.names, t.active);
      ResumedPassProgresses(fs, rule, mid, fs.nodes, t, failed, was, rule.Remembered(), path);
      PrunedFurther(before, mid, fs.nodes, path, path);
      passes := passes + 1;
    }
  }

  lemma UnfinishedFacts(fs: FileSystem, rule: Rule, nodes: Nodes, kept: Option<Memory>, path: Path)
    requires Unfinished(fs, rule, nodes, kept, path)
    ensures Tree(nodes) && kept.Some? && |Under(nodes, path)| > 0 && Pruned(nodes, nodes, path)
  {
    assert path in Under(nodes, path);
  }

  lemma OutcomeFacts(before: Nodes, after: Nodes, path: Path, budget: int, left: int, complete: bool,
                     failed: bool, quiet: bool)
    requires Outcome(before, after, path, budget, left, complete, failed, quiet)
    ensures Pruned(before, after, path) && left <= budget && (budget >= 0 ==> 0 <= left)
    ensures path in before && path in after ==> !complete && after[path] == before[path]
  {
  }

  lemma CleanedFacts(rule: Rule, before: Nodes, mid: Nodes, now: Nodes, cutoff: int, names: seq<string>,
                     active: seq<Active>, was: Option<Memory>)
    requires |active| == |names| + 1
    requires Cleaned(rule, before, mid, cutoff, names, active, was) &&
      Cleaned(rule, before, now, cutoff, names, active, was)
    ensures Tree(now)
    ensures forall p :: p in mid ==> p in before && mid[p] == before[p]
  {
  }

  /** A path leased through the whole pass loses nothing, inside or above it. */
  lemma LeasedStays(rule: Rule, before: Nodes, after: Nodes, cutoff: int, names: seq<string>,
                    active: seq<Active>, was: Option<Memory>, lease: Path, p: Path)
    requires |active| == |names| + 1 && Cleaned(rule, before, after, cutoff, names, active, was)
    requires forall k :: 0 <= k < |active| ==> lease in active[k]
    requires IsPath(rule.dir) && (forall i :: 0 <= i < |names| ==> IsComponent(names[i]))
    requires was.Some? ==> IsPath(was.value.path) && was.value.path != []
    requires IsPath(lease) && lease != []
    requires p in before && Overlaps(p, lease)
    ensures p in after
  {
    hide Tree, Clashes, PathString, Matches;
    if p !in after {
      assert MayGo(rule, before, cutoff, names, active, was, p);
      if Resumable(before, active[0], was) && was.value.path <= p {
        UnderAnUnprotected(active[0], was.value.path, lease, p);
      } else {
        var i :| 0 <= i < |names| && DisposableAt(rule, before, cutoff, names[i], active[i + 1], p);
        UnderAnUnprotected(active[i + 1], rule.dir + [names[i]], lease, p);
      }
    }
  }

  lemma UnderAnUnprotected(active: Active, top: Path, lease: Path, p: Path)
    requires IsPath(top) && top != [] && IsPath(lease) && lease != []
    requires lease in active && !Protected(active, top) && top <= p
    ensures !Overlaps(p, lease)
  {
    ClashesIffOverlaps(top, lease);
    hide Clashes, PathString;
  }
}
