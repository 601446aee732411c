/** What the explorers' reports mean for the system explored: soundness,
    bounded completeness, shortest counterexamples, and the agreement of
    breadth-first and depth-first search. */
module Exploration {
  import opened Common
  import opened ModelCheck
  import DF = DepthFirst

  // --------------------------------------------------------------- soundness

  /** The reported path replays from `init` through enabled actions to exactly
      the reported fault, and is as long as the reported depth. */
  ghost predicate Genuine<S, A>(sys: System<S, A>, init: S, f: Finding<A>) {
    |f.path| == f.depth &&
    match f.cause
    case Broken(message) =>
      After(sys, init, f.path).Some? && sys.broken(After(sys, init, f.path).value) == Some(message)
    case Raised => EndsRaising(sys, init, f.path)
  }

  lemma {:induction false} RaisingMember<S, A>(sys: System<S, A>, node: Node<S, A>, acts: seq<A>, f: Finding<A>) returns (a: A)
    requires f in Raising(sys, node, acts)
    ensures a in acts && sys.step(node.state, a).None? && f == Finding(node.depth + 1, node.path + [a], Raised)
  {
    var last := acts[|acts| - 1];
    if f in Raising(sys, node, acts[..|acts| - 1]) {
      a := RaisingMember(sys, node, acts[..|acts| - 1], f);
    } else {
      a := last;
    }
  }

  lemma FindingIsGenuine<S, A>(sys: System<S, A>, init: S, maxDepth: int, backwards: bool, node: Node<S, A>, f: Finding<A>)
    requires Placed(sys, init, maxDepth, node) && f in Findings(sys, maxDepth, backwards, node)
    ensures Genuine(sys, init, f)
  {
    CleanIsRun(sys, init, node.path);
    if sys.broken(node.state).None? {
      var acts := sys.actions(node.state);
      var a := RaisingMember(sys, node, if backwards then Reverse(acts) else acts, f);
      ReverseMember(acts, a);
      assert (node.path + [a])[..|node.path|] == node.path;
    }
  }

  lemma {:induction false} AllGenuine<S, A>(sys: System<S, A>, init: S, maxDepth: int, backwards: bool, order: seq<Node<S, A>>, f: Finding<A>)
    requires forall j :: 0 <= j < |order| ==> Placed(sys, init, maxDepth, order[j])
    requires f in AllFindings(sys, maxDepth, backwards, order)
    ensures Genuine(sys, init, f)
  {
    var front, node := order[..|order| - 1], order[|order| - 1];
    if f in AllFindings(sys, maxDepth, backwards, front) {
      AllGenuine(sys, init, maxDepth, backwards, front, f);
    } else {
      FindingIsGenuine(sys, init, maxDepth, backwards, node, f);
    }
  }

  /** Every violation either search reports is real, whatever the budget. */
  lemma BfsSound<S, A>(sys: System<S, A>, init: S, maxStates: int, maxDepth: int, r: Report<A>,
                       found: seq<Node<S, A>>, dist: map<S, nat>, f: Finding<A>)
    requires BfsRun(sys, init, maxStates, maxDepth, r, found, dist) && f in r.violations
    ensures Genuine(sys, init, f)
  {
    forall j | 0 <= j < r.visited
      ensures Placed(sys, init, maxDepth, found[j])
    {
      assert LayeredAt(sys, init, maxDepth, found, dist, j);
    }
    AllGenuine(sys, init, maxDepth, false, found[..r.visited], f);
  }

  lemma DfsSound<S, A>(sys: System<S, A>, init: S, maxStates: int, maxDepth: int, r: Report<A>,
                       order: seq<Node<S, A>>, rest: seq<Node<S, A>>, seen: set<S>, f: Finding<A>)
    requires DfsRun(sys, init, maxStates, maxDepth, r, order, rest, seen) && f in r.violations
    ensures Genuine(sys, init, f)
  {
    forall j | 0 <= j < |order|
      ensures Placed(sys, init, maxDepth, order[j])
    {
      assert PoppedAt(sys, init, maxDepth, order, seen, j);
    }
    AllGenuine(sys, init, maxDepth, true, order, f);
  }

  // -------------------------------------------------------------- depth first

  /** Depth first, on the paths popped: whatever is popped between a node and a
      descendant is a descendant as well, and of two successors of one state the
      one whose action is listed first is popped first. */
  lemma {:induction false} DfsIsDepthFirst<S, A>(sys: System<S, A>, init: S, order: seq<Node<S, A>>, i: nat, j: nat, k: nat, s: S)
    requires DF.Preorder(TreeOf(sys, init), Paths(order)) && i < j <= k < |order|
    ensures order[i].path <= order[k].path ==> order[i].path <= order[j].path
    ensures var u, v := order[i].path, order[j].path;
            u != [] && v != [] && u[..|u| - 1] == v[..|v| - 1] && CleanTo(sys, init, u[..|u| - 1]) == Some(s) ==>
              exists p, q :: 0 <= p < q < |sys.actions(s)| && sys.actions(s)[p] == u[|u| - 1] && sys.actions(s)[q] == v[|v| - 1]
  {
    hide CleanTo;
    assert DF.PreorderAt(TreeOf(sys, init), Paths(order), k) && DF.PreorderAt(TreeOf(sys, init), Paths(order), j);
    assert DF.FirstOf(TreeOf(sys, init), Paths(order)[i], Paths(order)[j]);
  }

  // ---------------------------------------------------------------- deadlocks

  /** The node is unbroken, above the bound, and has no actions. */
  ghost predicate Halts<S, A>(sys: System<S, A>, maxDepth: int, node: Node<S, A>) {
    sys.broken(node.state).None? && node.depth < maxDepth && sys.actions(node.state) == []
  }

  lemma {:induction false} DeadlockMember<S, A>(sys: System<S, A>, maxDepth: int, order: seq<Node<S, A>>, d: Deadlock<A>) returns (j: nat)
    requires d in AllStuck(sys, maxDepth, order)
    ensures j < |order| && d == Deadlock(order[j].depth, order[j].path)
    ensures sys.broken(order[j].state).None? && order[j].depth < maxDepth && sys.actions(order[j].state) == []
  {
    var front := order[..|order| - 1];
    if d in AllStuck(sys, maxDepth, front) {
      j := DeadlockMember(sys, maxDepth, front, d);
    } else {
      j := |order| - 1;
    }
  }

  /** Nodes placed at different states have different paths. */
  ghost predicate Separate<S, A>(sys: System<S, A>, init: S, maxDepth: int, order: seq<Node<S, A>>) {
    && (forall j :: 0 <= j < |order| ==> Placed(sys, init, maxDepth, order[j]))
    && forall i, j :: 0 <= i < j < |order| ==> order[i].state != order[j].state
  }

  lemma {:induction false} DeadlockOnce<S, A>(sys: System<S, A>, init: S, maxDepth: int, order: seq<Node<S, A>>, j: nat)
    requires Separate(sys, init, maxDepth, order) && j < |order|
    requires sys.broken(order[j].state).None? && order[j].depth < maxDepth && sys.actions(order[j].state) == []
    ensures multiset(AllStuck(sys, maxDepth, order))[Deadlock(order[j].depth, order[j].path)] == 1
  {
    hide Placed, AllStuck;
    var front, last := order[..|order| - 1], order[|order| - 1];
    var d := Deadlock(order[j].depth, order[j].path);
    StuckNext(sys, maxDepth, order);
    if j < |order| - 1 {
      assert front[j] == order[j];
      DeadlockOnce(sys, init, maxDepth, front, j);
      OwnPath(sys, init, maxDepth, order[j], last);
      assert d !in Stuck(sys, maxDepth, last);
    } else {
      if d in AllStuck(sys, maxDepth, front) {
        var i := DeadlockMember(sys, maxDepth, front, d);
        OwnPath(sys, init, maxDepth, order[i], last);
      }
    }
  }

  lemma StuckNext<S, A>(sys: System<S, A>, maxDepth: int, order: seq<Node<S, A>>)
    requires order != []
    ensures AllStuck(sys, maxDepth, order) == AllStuck(sys, maxDepth, order[..|order| - 1]) + Stuck(sys, maxDepth, order[|order| - 1])
  {
  }

  lemma OwnPath<S, A>(sys: System<S, A>, init: S, maxDepth: int, a: Node<S, A>, b: Node<S, A>)
    requires Placed(sys, init, maxDepth, a) && Placed(sys, init, maxDepth, b) && a.state != b.state
    ensures a.path != b.path
  {
  }

  lemma BfsSeparate<S, A>(sys: System<S, A>, init: S, maxStates: int, maxDepth: int, r: Report<A>, found: seq<Node<S, A>>, dist: map<S, nat>)
    requires BfsRun(sys, init, maxStates, maxDepth, r, found, dist)
    ensures Separate(sys, init, maxDepth, found)
  {
    hide Placed;
    forall j | 0 <= j < |found|
      ensures Placed(sys, init, maxDepth, found[j]) && forall i :: 0 <= i < j ==> found[i].state != found[j].state
    {
      assert LayeredAt(sys, init, maxDepth, found, dist, j);
    }
  }

  lemma DfsSeparate<S, A>(sys: System<S, A>, init: S, maxStates: int, maxDepth: int, r: Report<A>,
                          order: seq<Node<S, A>>, rest: seq<Node<S, A>>, seen: set<S>)
    requires DfsRun(sys, init, maxStates, maxDepth, r, order, rest, seen)
    ensures Separate(sys, init, maxDepth, order)
  {
    hide Placed;
    forall j | 0 <= j < |order|
      ensures Placed(sys, init, maxDepth, order[j]) && forall i :: 0 <= i < j ==> order[i].state != order[j].state
    {
      assert PoppedAt(sys, init, maxDepth, order, seen, j);
    }
  }

  lemma {:induction false} StuckIsReal<S, A>(sys: System<S, A>, init: S, maxDepth: int, order: seq<Node<S, A>>, d: Deadlock<A>)
    requires Separate(sys, init, maxDepth, order) && d in AllStuck(sys, maxDepth, order)
    ensures After(sys, init, d.path).Some? && |d.path| == d.depth < maxDepth
    ensures sys.broken(After(sys, init, d.path).value).None? && sys.actions(After(sys, init, d.path).value) == []
  {
    var j := DeadlockMember(sys, maxDepth, order, d);
    CleanIsRun(sys, init, order[j].path);
  }

  /** Every deadlock reported is real: its path replays, as long as its depth and
      shorter than the bound, to an unbroken state without actions. And every node
      popped at such a state above the bound is reported, once, with its own path. */
  lemma {:induction false} BfsDeadlocks<S, A>(sys: System<S, A>, init: S, maxStates: int, maxDepth: int, r: Report<A>,
                                              found: seq<Node<S, A>>, dist: map<S, nat>, d: Deadlock<A>, j: nat)
    requires BfsRun(sys, init, maxStates, maxDepth, r, found, dist) && j < r.visited
    ensures d in r.deadlocks ==>
              && After(sys, init, d.path).Some? && |d.path| == d.depth < maxDepth
              && sys.broken(After(sys, init, d.path).value).None? && sys.actions(After(sys, init, d.path).value) == []
    ensures sys.broken(found[j].state).None? && found[j].depth < maxDepth && sys.actions(found[j].state) == [] ==>
              multiset(r.deadlocks)[Deadlock(found[j].depth, found[j].path)] == 1
  {
    hide Placed, AllStuck, Layered, Near, Processed, Separate;
    var order := found[..r.visited];
    BfsSeparate(sys, init, maxStates, maxDepth, r, found, dist);
    SeparatePrefix(sys, init, maxDepth, found, r.visited);
    if d in r.deadlocks { StuckIsReal(sys, init, maxDepth, order, d); }
    if Halts(sys, maxDepth, found[j]) { DeadlockOnce(sys, init, maxDepth, order, j); }
  }

  lemma SeparatePrefix<S, A>(sys: System<S, A>, init: S, maxDepth: int, order: seq<Node<S, A>>, n: nat)
    requires Separate(sys, init, maxDepth, order) && n <= |order|
    ensures Separate(sys, init, maxDepth, order[..n])
  {
    hide Placed;
  }

  lemma {:induction false} DfsDeadlocks<S, A>(sys: System<S, A>, init: S, maxStates: int, maxDepth: int, r: Report<A>,
                                              order: seq<Node<S, A>>, rest: seq<Node<S, A>>, seen: set<S>, d: Deadlock<A>, j: nat)
    requires DfsRun(sys, init, maxStates, maxDepth, r, order, rest, seen) && j < |order|
    ensures d in r.deadlocks ==>
              && After(sys, init, d.path).Some? && |d.path| == d.depth < maxDepth
              && sys.broken(After(sys, init, d.path).value).None? && sys.actions(After(sys, init, d.path).value) == []
    ensures sys.broken(order[j].state).None? && order[j].depth < maxDepth && sys.actions(order[j].state) == [] ==>
              multiset(r.deadlocks)[Deadlock(order[j].depth, order[j].path)] == 1
  {
    hide Placed, AllStuck, Dive, Separate;
    DfsSeparate(sys, init, maxStates, maxDepth, r, order, rest, seen);
    if d in r.deadlocks { StuckIsReal(sys, init, maxDepth, order, d); }
    if Halts(sys, maxDepth, order[j]) { DeadlockOnce(sys, init, maxDepth, order, j); }
  }

  // ----------------------------------------------- what breadth first reaches

  /** A state at the end of a clean path has been found at most as deep as the
      path is long, if every node found above the path's end was processed. */
  lemma {:induction false} FoundWithin<S, A>(sys: System<S, A>, init: S, maxDepth: int, found: seq<Node<S, A>>, n: nat, dist: map<S, nat>, path: seq<A>)
    requires n <= |found| && Layered(sys, init, maxDepth, found, dist) && Processed(sys, maxDepth, found, n, dist)
    requires CleanTo(sys, init, path).Some? && (path == [] || |path| <= maxDepth)
    requires forall j :: 0 <= j < |found| && found[j].depth < |path| ==> j < n
    ensures var s := CleanTo(sys, init, path).value; s in dist && dist[s] <= |path|
  {
    if path == [] {
      assert LayeredAt(sys, init, maxDepth, found, dist, 0);
    } else {
      var front, last := path[..|path| - 1], path[|path| - 1];
      FoundWithin(sys, init, maxDepth, found, n, dist, front);
      var p := CleanTo(sys, init, front).value;
      var j :| 0 <= j < |found| && found[j].state == p;
      assert LayeredAt(sys, init, maxDepth, found, dist, j);
      assert ProcessedAt(sys, maxDepth, found[j], dist);
      var acts := sys.actions(p);
      var k :| 0 <= k < |acts| && acts[k] == last;
      assert SuccessorFound(sys, found[j], acts, k, dist);
    }
  }

  /** The index of the node found for the state at the end of a clean path. */
  lemma FoundIndex<S, A>(sys: System<S, A>, init: S, maxDepth: int, found: seq<Node<S, A>>, n: nat, dist: map<S, nat>, path: seq<A>)
    returns (j: nat)
    requires n <= |found| && Layered(sys, init, maxDepth, found, dist) && Processed(sys, maxDepth, found, n, dist)
    requires CleanTo(sys, init, path).Some? && (path == [] || |path| <= maxDepth)
    requires forall j :: 0 <= j < |found| && found[j].depth < |path| ==> j < n
    ensures j < |found| && found[j].state == CleanTo(sys, init, path).value && found[j].depth <= |path|
  {
    FoundWithin(sys, init, maxDepth, found, n, dist, path);
    j :| 0 <= j < |found| && found[j].state == CleanTo(sys, init, path).value;
    assert LayeredAt(sys, init, maxDepth, found, dist, j);
  }

  // ---------------------------------------------------------- silent prefixes

  lemma {:induction false} RaisingCatches<S, A>(sys: System<S, A>, node: Node<S, A>, acts: seq<A>, a: A)
    requires a in acts && sys.step(node.state, a).None?
    ensures Raising(sys, node, acts) != []
  {
    if a != acts[|acts| - 1] { RaisingCatches(sys, node, acts[..|acts| - 1], a); }
  }

  /** A node with nothing to report satisfies the invariant and, when it was
      expanded, none of its actions raises. */
  lemma SilentNode<S, A>(sys: System<S, A>, maxDepth: int, backwards: bool, node: Node<S, A>)
    requires Findings(sys, maxDepth, backwards, node) == []
    ensures sys.broken(node.state).None?
    ensures node.depth < maxDepth ==> forall a :: a in sys.actions(node.state) ==> sys.step(node.state, a).Some?
  {
    if node.depth < maxDepth {
      forall a | a in sys.actions(node.state)
        ensures sys.step(node.state, a).Some?
      {
        var acts := sys.actions(node.state);
        ReverseMember(acts, a);
        if sys.step(node.state, a).None? {
          RaisingCatches(sys, node, if backwards then Reverse(acts) else acts, a);
        }
      }
    }
  }

  lemma {:induction false} SilentMember<S, A>(sys: System<S, A>, maxDepth: int, backwards: bool, order: seq<Node<S, A>>, j: nat)
    requires AllFindings(sys, maxDepth, backwards, order) == [] && j < |order|
    ensures Findings(sys, maxDepth, backwards, order[j]) == []
  {
    if j < |order| - 1 {
      var front := order[..|order| - 1];
      assert front[j] == order[j];
      SilentMember(sys, maxDepth, backwards, front, j);
    }
  }

  lemma {:induction false} StuckMember<S, A>(sys: System<S, A>, maxDepth: int, order: seq<Node<S, A>>, j: nat)
    requires AllStuck(sys, maxDepth, order) == [] && j < |order|
    ensures Stuck(sys, maxDepth, order[j]) == []
  {
    if j < |order| - 1 {
      var front := order[..|order| - 1];
      assert front[j] == order[j];
      StuckMember(sys, maxDepth, front, j);
    }
  }

  /** Where the first finding comes from: nothing is reported before that node. */
  lemma {:induction false} FirstFinding<S, A>(sys: System<S, A>, maxDepth: int, backwards: bool, order: seq<Node<S, A>>) returns (i: nat)
    requires AllFindings(sys, maxDepth, backwards, order) != []
    ensures i < |order| && Findings(sys, maxDepth, backwards, order[i]) != []
    ensures AllFindings(sys, maxDepth, backwards, order)[0] == Findings(sys, maxDepth, backwards, order[i])[0]
    ensures AllFindings(sys, maxDepth, backwards, order[..i]) == []
  {
    hide Findings;
    var front := order[..|order| - 1];
    if AllFindings(sys, maxDepth, backwards, front) == [] {
      i := |order| - 1;
    } else {
      i := FirstFinding(sys, maxDepth, backwards, front);
      assert front[..i] == order[..i];
    }
  }

  /** No faulty run leaves the silent part: if every node found above depth `d`
      is silent and processed, a run that ends broken has at least `d` actions
      and one that ends raising has more. */
  lemma SilentAbove<S, A>(sys: System<S, A>, init: S, maxDepth: int, found: seq<Node<S, A>>, n: nat, dist: map<S, nat>, d: nat, path: seq<A>)
    requires n <= |found| && Layered(sys, init, maxDepth, found, dist) && Processed(sys, maxDepth, found, n, dist)
    requires d == 0 || d <= maxDepth + 1
    requires forall j :: 0 <= j < |found| && found[j].depth < d ==> j < n && Findings(sys, maxDepth, false, found[j]) == []
    ensures EndsBroken(sys, init, path) ==> |path| >= d
    ensures EndsRaising(sys, init, path) ==> |path| > d || (d == maxDepth + 1 && |path| == d)
  {
    if EndsBroken(sys, init, path) && |path| < d {
      var k := CleanOrBrokenEarlier(sys, init, path);
      assert k == |path| ==> path[..k] == path;
      SilentAt(sys, init, maxDepth, found, n, dist, d, path[..k]);
    }
    if EndsRaising(sys, init, path) && |path| <= d && |path| <= maxDepth {
      var front := path[..|path| - 1];
      var k := CleanOrBrokenEarlier(sys, init, front);
      assert k == |front| ==> front[..k] == front;
      SilentAt(sys, init, maxDepth, found, n, dist, d, front[..k]);
    }
  }

  /** At the end of a clean path shorter than `d` nothing is wrong. */
  lemma {:induction false} SilentAt<S, A>(sys: System<S, A>, init: S, maxDepth: int, found: seq<Node<S, A>>, n: nat, dist: map<S, nat>, d: nat, path: seq<A>)
    requires n <= |found| && Layered(sys, init, maxDepth, found, dist) && Processed(sys, maxDepth, found, n, dist)
    requires d == 0 || d <= maxDepth + 1
    requires forall j :: 0 <= j < |found| && found[j].depth < d ==> j < n && Findings(sys, maxDepth, false, found[j]) == []
    requires CleanTo(sys, init, path).Some? && |path| < d
    ensures var s := CleanTo(sys, init, path).value;
            sys.broken(s).None? && (|path| < maxDepth ==> forall a :: a in sys.actions(s) ==> sys.step(s, a).Some?)
  {
    var j := FoundIndex(sys, init, maxDepth, found, n, dist, path);
    SilentNode(sys, maxDepth, false, found[j]);
  }

  // ------------------------------------------------------ bounded completeness

  lemma RunOfBfs<S, A>(sys: System<S, A>, init: S, maxStates: int, maxDepth: int, r: Report<A>, found: seq<Node<S, A>>, dist: map<S, nat>)
    requires BfsRun(sys, init, maxStates, maxDepth, r, found, dist) && r.visited < maxStates && r.violations == []
    ensures forall j :: 0 <= j < |found| ==> Findings(sys, maxDepth, false, found[j]) == []
  {
    assert found[..r.visited] == found;
    forall j | 0 <= j < |found|
      ensures Findings(sys, maxDepth, false, found[j]) == []
    {
      SilentMember(sys, maxDepth, false, found, j);
    }
  }

  /** If breadth-first search stops within its budget without a violation, every
      run of at most `maxDepth` enabled actions ends in a state that satisfies
      the invariant, none of its actions raises, and - when no deadlock was
      reported either - it can be continued unless it has `maxDepth` actions. */
  lemma {:induction false} BfsComplete<S, A>(sys: System<S, A>, init: S, maxStates: int, maxDepth: int, r: Report<A>,
                          found: seq<Node<S, A>>, dist: map<S, nat>, path: seq<A>)
    requires BfsRun(sys, init, maxStates, maxDepth, r, found, dist) && r.visited < maxStates && r.violations == []
    requires |path| <= maxDepth
    ensures !Faulty(sys, init, path)
    ensures r.deadlocks == [] && After(sys, init, path).Some? && |path| < maxDepth ==>
              sys.actions(After(sys, init, path).value) != []
  {
    RunOfBfs(sys, init, maxStates, maxDepth, r, found, dist);
    SilentAbove(sys, init, maxDepth, found, r.visited, dist, maxDepth + 1, path);
    if After(sys, init, path).Some? && |path| < maxDepth && r.deadlocks == [] {
      var k := CleanOrBrokenEarlier(sys, init, path);
      assert k == |path| ==> path[..k] == path;
      SilentAt(sys, init, maxDepth, found, r.visited, dist, maxDepth + 1, path[..k]);
      var j := FoundIndex(sys, init, maxDepth, found, r.visited, dist, path);
      assert found[..r.visited] == found;
      StuckMember(sys, maxDepth, found, j);
    }
  }

  /** With budget left, every state where a clean run of fewer than `maxDepth`
      actions gets stuck is in the report, with one path, and that is a shortest
      clean run to it. */
  lemma {:induction false} BfsListsDeadlocks<S, A>(sys: System<S, A>, init: S, maxStates: int, maxDepth: int, r: Report<A>,
                                                   found: seq<Node<S, A>>, dist: map<S, nat>, path: seq<A>, t: S)
    returns (d: Deadlock<A>)
    requires BfsRun(sys, init, maxStates, maxDepth, r, found, dist) && r.visited < maxStates
    requires CleanTo(sys, init, path) == Some(t) && |path| < maxDepth && sys.broken(t).None? && sys.actions(t) == []
    ensures d in r.deadlocks && After(sys, init, d.path) == Some(t) && d.depth <= |path|
    ensures forall e :: e in r.deadlocks && CleanTo(sys, init, e.path) == Some(t) ==> e == d
  {
    hide Placed, AllStuck, Layered, Processed, Separate;
    var j := FoundIndex(sys, init, maxDepth, found, r.visited, dist, path);
    d := Deadlock(found[j].depth, found[j].path);
    BfsSeparate(sys, init, maxStates, maxDepth, r, found, dist);
    BfsDeadlocks(sys, init, maxStates, maxDepth, r, found, dist, d, j);
    assert d in multiset(r.deadlocks);
    NodeRun(sys, init, maxDepth, found, j);
    assert found[..r.visited] == found;
    forall e | e in r.deadlocks && CleanTo(sys, init, e.path) == Some(t)
      ensures e == d
    {
      var i := DeadlockMember(sys, maxDepth, found, e);
      NodeRun(sys, init, maxDepth, found, i);
      SameStateSameNode(sys, init, maxDepth, found, i, j);
    }
  }

  lemma NodeRun<S, A>(sys: System<S, A>, init: S, maxDepth: int, found: seq<Node<S, A>>, j: nat)
    requires Separate(sys, init, maxDepth, found) && j < |found|
    ensures CleanTo(sys, init, found[j].path) == After(sys, init, found[j].path) == Some(found[j].state)
  {
    CleanIsRun(sys, init, found[j].path);
  }

  lemma SameStateSameNode<S, A>(sys: System<S, A>, init: S, maxDepth: int, found: seq<Node<S, A>>, i: nat, j: nat)
    requires Separate(sys, init, maxDepth, found) && i < |found| && j < |found| && found[i].state == found[j].state
    ensures i == j
  {
    hide Placed;
  }

  /** What either search reports: how many nodes it popped, and the depth of the
      deepest of them. */
  lemma {:induction false} DepthReported<S, A>(sys: System<S, A>, maxDepth: int, backwards: bool, order: seq<Node<S, A>>, r: Report<A>) returns (i: nat)
    requires Reports(sys, maxDepth, backwards, order, r) && order != []
    ensures r.visited == |order| && i < |order| && order[i].depth == r.maxDepth
    ensures forall j :: 0 <= j < |order| ==> order[j].depth <= r.maxDepth
  {
    i := DeepestIsReached(order);
  }

  lemma {:induction false} DeepestIsReached<S, A>(order: seq<Node<S, A>>) returns (i: nat)
    requires order != []
    ensures i < |order| && order[i].depth == Deepest(order) && forall j :: 0 <= j < |order| ==> order[j].depth <= order[i].depth
  {
    var front := order[..|order| - 1];
    i := |order| - 1;
    if front != [] {
      var k := DeepestIsReached(front);
      assert forall j :: 0 <= j < |front| ==> order[j] == front[j];
      if front[k].depth >= order[i].depth { i := k; }
    }
  }

  // ---------------------------------------------------- shortest counterexample

  /** Every node found above the layer of the first finding is silent. */
  lemma SilentAboveFirst<S, A>(sys: System<S, A>, init: S, maxDepth: int, found: seq<Node<S, A>>, n: nat, dist: map<S, nat>, i: nat, j: nat)
    requires Layered(sys, init, maxDepth, found, dist) && i < n <= |found| && j < |found|
    requires AllFindings(sys, maxDepth, false, found[..i]) == [] && found[j].depth < found[i].depth
    ensures j < n && Findings(sys, maxDepth, false, found[j]) == []
  {
    assert LayeredAt(sys, init, maxDepth, found, dist, j);
    assert found[..i][j] == found[j];
    SilentMember(sys, maxDepth, false, found[..i], j);
  }

  lemma DepthWithin<S, A>(sys: System<S, A>, init: S, maxDepth: int, found: seq<Node<S, A>>, dist: map<S, nat>, i: nat)
    requires Layered(sys, init, maxDepth, found, dist) && i < |found|
    ensures found[i].depth <= maxDepth || found[i].depth == 0
  {
    assert LayeredAt(sys, init, maxDepth, found, dist, i);
  }

  /** The first violation reported is as short as any faulty run at all, even
      when the budget ran out, with one exception: an action that raises is
      reported while its layer is being popped, so it may come before a broken
      state of that same layer, whose run is one action shorter. */
  lemma BfsShortest<S, A>(sys: System<S, A>, init: S, maxStates: int, maxDepth: int, r: Report<A>,
                          found: seq<Node<S, A>>, dist: map<S, nat>, path: seq<A>)
    requires BfsRun(sys, init, maxStates, maxDepth, r, found, dist) && r.violations != []
    requires Faulty(sys, init, path)
    ensures r.violations[0].depth <= |path|
            || (r.violations[0].cause.Raised? && EndsBroken(sys, init, path) && r.violations[0].depth == |path| + 1)
  {
    hide Findings, AllFindings, LayeredAt, Processed, EndsBroken;
    var order := found[..r.visited];
    var i := FirstFinding(sys, maxDepth, false, order);
    assert order[..i] == found[..i];
    forall j | 0 <= j < |found| && found[j].depth < found[i].depth
      ensures j < r.visited && Findings(sys, maxDepth, false, found[j]) == []
    {
      SilentAboveFirst(sys, init, maxDepth, found, r.visited, dist, i, j);
    }
    DepthWithin(sys, init, maxDepth, found, dist, i);
    SilentAbove(sys, init, maxDepth, found, r.visited, dist, found[i].depth, path);
    FindingsDepth(sys, maxDepth, false, found[i], r.violations[0]);
  }

  lemma {:induction false} FindingListed<S, A>(sys: System<S, A>, maxDepth: int, backwards: bool, order: seq<Node<S, A>>, j: nat, f: Finding<A>)
    requires j < |order| && f in Findings(sys, maxDepth, backwards, order[j])
    ensures f in AllFindings(sys, maxDepth, backwards, order)
  {
    if j < |order| - 1 {
      var front := order[..|order| - 1];
      assert front[j] == order[j];
      FindingListed(sys, maxDepth, backwards, front, j, f);
    }
  }

  /** A broken state below the layer of an exhaustive search's raising actions is
      itself listed, no deeper than its run is long. */
  lemma {:induction false} BrokenIsListed<S, A>(sys: System<S, A>, init: S, maxStates: int, maxDepth: int, r: Report<A>,
                                                found: seq<Node<S, A>>, dist: map<S, nat>, path: seq<A>)
    returns (n: nat)
    requires BfsRun(sys, init, maxStates, maxDepth, r, found, dist) && r.visited < maxStates
    requires EndsBroken(sys, init, path) && (path == [] || |path| <= maxDepth)
    ensures n < |r.violations| && r.violations[n].depth <= |path|
  {
    hide Reports, Layered, Processed;
    var k := CleanOrBrokenEarlier(sys, init, path);
    assert k == |path| ==> path[..k] == path;
    var j := FoundIndex(sys, init, maxDepth, found, r.visited, dist, path[..k]);
    var message := sys.broken(found[j].state).value;
    var f := Finding(found[j].depth, found[j].path, Broken(message));
    WholeReport(sys, maxDepth, found, r);
    FindingListed(sys, maxDepth, false, found, j, f);
    n :| 0 <= n < |r.violations| && r.violations[n] == f;
  }

  lemma WholeReport<S, A>(sys: System<S, A>, maxDepth: int, found: seq<Node<S, A>>, r: Report<A>)
    requires r.visited == |found| && Reports(sys, maxDepth, false, found[..r.visited], r)
    ensures r.violations == AllFindings(sys, maxDepth, false, found)
  {
    assert found[..r.visited] == found;
  }

  /** Either search reports every broken state it pops and every raising action of
      the nodes it expands. */
  lemma {:induction false} ViolationsListed<S, A>(sys: System<S, A>, maxDepth: int, backwards: bool, order: seq<Node<S, A>>, r: Report<A>, j: nat, a: A)
    requires Reports(sys, maxDepth, backwards, order, r) && j < |order|
    ensures var node := order[j];
            if sys.broken(node.state).Some? then Finding(node.depth, node.path, Broken(sys.broken(node.state).value)) in r.violations
            else node.depth < maxDepth && a in sys.actions(node.state) && sys.step(node.state, a).None? ==>
                   Finding(node.depth + 1, node.path + [a], Raised) in r.violations
  {
    var node, acts := order[j], sys.actions(order[j].state);
    if sys.broken(node.state).Some? {
      FindingListed(sys, maxDepth, backwards, order, j, Finding(node.depth, node.path, Broken(sys.broken(node.state).value)));
    } else if node.depth < maxDepth && a in acts && sys.step(node.state, a).None? {
      ReverseMember(acts, a);
      RaisingListed(sys, node, if backwards then Reverse(acts) else acts, a);
      FindingListed(sys, maxDepth, backwards, order, j, Finding(node.depth + 1, node.path + [a], Raised));
    }
  }

  lemma {:induction false} RaisingListed<S, A>(sys: System<S, A>, node: Node<S, A>, acts: seq<A>, a: A)
    requires a in acts && sys.step(node.state, a).None?
    ensures Finding(node.depth + 1, node.path + [a], Raised) in Raising(sys, node, acts)
  {
    if a != acts[|acts| - 1] { RaisingListed(sys, node, acts[..|acts| - 1], a); }
  }

  /** When the budget did not run out, the first violation reported is as short as
      any faulty run exactly when no later one in the report is shorter. */
  lemma {:induction false} FirstIsShortest<S(!new), A(!new)>(sys: System<S, A>, init: S, maxStates: int, maxDepth: int, r: Report<A>,
                                                             found: seq<Node<S, A>>, dist: map<S, nat>)
    requires BfsRun(sys, init, maxStates, maxDepth, r, found, dist) && r.visited < maxStates && r.violations != []
    ensures (forall path :: Faulty(sys, init, path) ==> r.violations[0].depth <= |path|) <==>
            forall k :: 0 <= k < |r.violations| ==> r.violations[0].depth <= r.violations[k].depth
  {
    hide BfsRun;
    var first := r.violations[0];
    if forall path :: Faulty(sys, init, path) ==> first.depth <= |path| {
      forall k | 0 <= k < |r.violations|
        ensures first.depth <= r.violations[k].depth
      {
        BfsSound(sys, init, maxStates, maxDepth, r, found, dist, r.violations[k]);
        assert Faulty(sys, init, r.violations[k].path);
      }
    }
    if forall k :: 0 <= k < |r.violations| ==> first.depth <= r.violations[k].depth {
      forall path | Faulty(sys, init, path)
        ensures first.depth <= |path|
      {
        BfsShortest(sys, init, maxStates, maxDepth, r, found, dist, path);
        if |path| < first.depth {
          FirstWithin(sys, init, maxStates, maxDepth, r, found, dist);
          var k := BrokenIsListed(sys, init, maxStates, maxDepth, r, found, dist, path);
        }
      }
    }
  }

  /** An action that raises is taken at most at the bound. */
  lemma FirstWithin<S, A>(sys: System<S, A>, init: S, maxStates: int, maxDepth: int, r: Report<A>,
                          found: seq<Node<S, A>>, dist: map<S, nat>)
    requires BfsRun(sys, init, maxStates, maxDepth, r, found, dist) && r.violations != []
    ensures r.violations[0].depth <= maxDepth || r.violations[0].depth == 0
  {
    var i := FirstFinding(sys, maxDepth, false, found[..r.visited]);
    assert LayeredAt(sys, init, maxDepth, found, dist, i);
    FindingsDepth(sys, maxDepth, false, found[i], r.violations[0]);
  }

  /** The initial state has two successors: the only action of the left one
      raises, and the right one is broken. */
  function Fork(): System<int, string> {
    System(s => if s == 0 then ["left", "right"] else if s == 1 then ["crash"] else [],
           (s, a) => if s != 0 then None else if a == "left" then Some(1) else Some(2),
           s => if s == 2 then Some("broken") else None)
  }

  function ForkNodes(): seq<Node<int, string>> {
    [Node(0, 0, []), Node(1, 1, ["left"]), Node(2, 1, ["right"])]
  }

  lemma ForkSteps()
    ensures Fork().step(0, "left") == Some(1) && Fork().step(0, "right") == Some(2)
  {
    assert "right"[0] == 'r' && "left"[0] == 'l';
  }

  lemma ForkDiscovered(maxDepth: int)
    requires maxDepth >= 2
    ensures Discovered(Fork(), 0, maxDepth, 1) == ForkNodes() && Discovered(Fork(), 0, maxDepth, 2) == ForkNodes()
    ensures Discovered(Fork(), 0, maxDepth, 3) == ForkNodes()
  {
    var sys, start := Fork(), [Node(0, 0, [])];
    var acts := ["left", "right"];
    ForkSteps();
    assert [] + ["left"] == ["left"] && [] + ["right"] == ["right"];
    assert acts[..1] == ["left"] && acts[..1][..0] == [];
    assert Enqueued(sys, start, start[0], ["left"]) == start + [Node(1, 1, ["left"])];
    var two := start + [Node(1, 1, ["left"])];
    assert !Holds(two, 2);
    assert Enqueued(sys, start, start[0], acts) == two + [Node(2, 1, ["right"])] == ForkNodes();
    assert Discovered(sys, 0, maxDepth, 0) == start;
    DiscoveredNext(sys, 0, maxDepth, 0, start);
    assert ["crash"][..0] == [];
    assert Enqueued(sys, ForkNodes(), ForkNodes()[1], ["crash"]) == ForkNodes();
    DiscoveredNext(sys, 0, maxDepth, 1, ForkNodes());
    DiscoveredNext(sys, 0, maxDepth, 2, ForkNodes());
  }

  lemma ForkFindings(maxDepth: int)
    requires maxDepth >= 2
    ensures AllFindings(Fork(), maxDepth, false, ForkNodes()) ==
            [Finding(2, ["left", "crash"], Raised), Finding(1, ["right"], Broken("broken"))]
  {
    var sys, nodes := Fork(), ForkNodes();
    ForkSteps();
    assert ["left"] + ["crash"] == ["left", "crash"];
    assert nodes[..2][..1] == nodes[..1] && nodes[..1][..0] == [];
    var acts := ["left", "right"];
    assert acts[..1] == ["left"] && acts[..1][..0] == [] && ["crash"][..0] == [];
    assert Raising(sys, nodes[0], ["left"]) == [];
    assert Raising(sys, nodes[0], acts) == [];
    assert Raising(sys, nodes[1], ["crash"]) == [Finding(2, ["left"] + ["crash"], Raised)];
    assert Findings(sys, maxDepth, false, nodes[0]) == [];
    assert Findings(sys, maxDepth, false, nodes[1]) == [Finding(2, ["left", "crash"], Raised)];
    assert Findings(sys, maxDepth, false, nodes[2]) == [Finding(1, ["right"], Broken("broken"))];
    hide Findings;
    assert AllFindings(sys, maxDepth, false, nodes[..1]) == [];
    assert AllFindings(sys, maxDepth, false, nodes[..2]) == [Finding(2, ["left", "crash"], Raised)];
  }

  /** So the first violation need not be a shortest one, nor need they come in
      order of depth: here the search reports a run of two actions before one of
      one action. */
  method RaisingComesFirst(maxStates: int, maxDepth: int) returns (r: Report<string>)
    requires maxStates >= 3 && maxDepth >= 2
    ensures r.violations == [Finding(2, ["left", "crash"], Raised), Finding(1, ["right"], Broken("broken"))]
    ensures EndsBroken(Fork(), 0, ["right"])
  {
    ghost var found, dist;
    r, found, dist := ExploreBfs(Fork(), 0, maxStates, maxDepth);
    ForkDiscovered(maxDepth);
    ForkFindings(maxDepth);
    StartDiscovered(Fork(), 0, maxDepth);
    ForkWhole(maxStates, maxDepth, r, found, dist);
    assert ["right"][..0] == [];
  }

  lemma ForkWhole(maxStates: int, maxDepth: int, r: Report<string>, found: seq<Node<int, string>>, dist: map<int, nat>)
    requires maxStates >= 3 && maxDepth >= 2 && BfsRun(Fork(), 0, maxStates, maxDepth, r, found, dist)
    requires found == Discovered(Fork(), 0, maxDepth, r.visited) && r.visited <= maxStates
    ensures r.violations == AllFindings(Fork(), maxDepth, false, ForkNodes())
  {
    ForkDiscovered(maxDepth);
    ForkStays(maxDepth, r.visited);
    assert r.visited == 3 && found == ForkNodes();
    assert found[..3] == found;
  }

  lemma {:induction false} ForkStays(maxDepth: int, n: nat)
    requires maxDepth >= 2
    ensures n > 0 ==> Discovered(Fork(), 0, maxDepth, n) == ForkNodes()
  {
    ForkDiscovered(maxDepth);
    if n > 3 { ForkStays(maxDepth, n - 1); }
  }

  lemma {:induction false} FindingsDepth<S, A>(sys: System<S, A>, maxDepth: int, backwards: bool, node: Node<S, A>, f: Finding<A>)
    requires f in Findings(sys, maxDepth, backwards, node)
    ensures f.depth == if f.cause.Raised? then node.depth + 1 else node.depth
  {
    if sys.broken(node.state).None? {
      var acts := sys.actions(node.state);
      var _ := RaisingMember(sys, node, if backwards then Reverse(acts) else acts, f);
    }
  }

  lemma {:induction false} AllFindingsDepth<S, A>(sys: System<S, A>, maxDepth: int, backwards: bool, order: seq<Node<S, A>>, bound: nat, f: Finding<A>)
    requires f in AllFindings(sys, maxDepth, backwards, order)
    requires forall j :: 0 <= j < |order| ==> order[j].depth <= bound
    ensures f.depth <= if f.cause.Raised? then bound + 1 else bound
  {
    var front := order[..|order| - 1];
    if f in AllFindings(sys, maxDepth, backwards, front) {
      AllFindingsDepth(sys, maxDepth, backwards, front, bound, f);
    } else {
      FindingsDepth(sys, maxDepth, backwards, order[|order| - 1], f);
    }
  }

  /** Violations come in order of depth; a raising action may come one early. */
  lemma {:induction false} FindingsOrdered<S, A>(sys: System<S, A>, maxDepth: int, order: seq<Node<S, A>>, k: nat, l: nat)
    requires forall i, j :: 0 <= i < j < |order| ==> order[i].depth <= order[j].depth
    requires k < l < |AllFindings(sys, maxDepth, false, order)|
    ensures var all := AllFindings(sys, maxDepth, false, order);
            all[k].depth <= all[l].depth + (if all[k].cause.Raised? && !all[l].cause.Raised? then 1 else 0)
  {
    var front, node := order[..|order| - 1], order[|order| - 1];
    var all, early := AllFindings(sys, maxDepth, false, order), AllFindings(sys, maxDepth, false, front);
    var late := Findings(sys, maxDepth, false, node);
    assert all == early + late;
    if l < |early| {
      FindingsOrdered(sys, maxDepth, front, k, l);
    } else {
      assert all[l] in late;
      FindingsDepth(sys, maxDepth, false, node, all[l]);
      if k < |early| {
        assert all[k] in early;
        AllFindingsDepth(sys, maxDepth, false, front, node.depth, all[k]);
      } else {
        assert all[k] in late;
        FindingsDepth(sys, maxDepth, false, node, all[k]);
      }
    }
  }

  lemma BfsOrdered<S, A>(sys: System<S, A>, init: S, maxStates: int, maxDepth: int, r: Report<A>,
                         found: seq<Node<S, A>>, dist: map<S, nat>, k: nat, l: nat)
    requires BfsRun(sys, init, maxStates, maxDepth, r, found, dist) && k < l < |r.violations|
    ensures r.violations[k].depth <= r.violations[l].depth
            + (if r.violations[k].cause.Raised? && !r.violations[l].cause.Raised? then 1 else 0)
    ensures r.violations[k].depth > r.violations[l].depth <==>
            r.violations[k].cause.Raised? && r.violations[l].cause.Broken? && r.violations[k].depth == r.violations[l].depth + 1
  {
    forall i, j | 0 <= i < j < r.visited
      ensures found[i].depth <= found[j].depth
    {
      assert LayeredAt(sys, init, maxDepth, found, dist, j);
    }
    FindingsOrdered(sys, maxDepth, found[..r.visited], k, l);
  }

  /** With transitions that never raise there is no exception: violations come
      in nondecreasing depth, and the first is as short as any violating run. */
  lemma BfsShortestWhenTotal<S(!new), A(!new)>(sys: System<S, A>, init: S, maxStates: int, maxDepth: int, r: Report<A>,
                                               found: seq<Node<S, A>>, dist: map<S, nat>)
    requires BfsRun(sys, init, maxStates, maxDepth, r, found, dist) && NeverRaises(sys)
    ensures forall k, l :: 0 <= k < l < |r.violations| ==> r.violations[k].depth <= r.violations[l].depth
    ensures r.violations != [] ==> forall path :: EndsBroken(sys, init, path) ==> r.violations[0].depth <= |path|
  {
    forall k | 0 <= k < |r.violations|
      ensures !r.violations[k].cause.Raised?
    {
      BfsSound(sys, init, maxStates, maxDepth, r, found, dist, r.violations[k]);
    }
    forall k, l | 0 <= k < l < |r.violations|
      ensures r.violations[k].depth <= r.violations[l].depth
    {
      BfsOrdered(sys, init, maxStates, maxDepth, r, found, dist, k, l);
    }
    if r.violations != [] {
      forall path | EndsBroken(sys, init, path)
        ensures r.violations[0].depth <= |path|
      {
        BfsShortest(sys, init, maxStates, maxDepth, r, found, dist, path);
      }
    }
  }

  // --------------------------------------------------------------- agreement

  function Sum<S>(states: seq<S>, w: S -> nat): nat {
    if states == [] then 0 else Sum(states[..|states| - 1], w) + w(states[|states| - 1])
  }

  ghost predicate Distinct<S>(states: seq<S>) {
    forall i, j :: 0 <= i < j < |states| ==> states[i] != states[j]
  }

  lemma {:induction false} SumRemove<S>(states: seq<S>, k: nat, w: S -> nat)
    requires k < |states|
    ensures Sum(states, w) == Sum(states[..k] + states[k + 1..], w) + w(states[k])
  {
    var without := states[..k] + states[k + 1..];
    if k == |states| - 1 {
      assert without == states[..k];
    } else {
      var front := states[..|states| - 1];
      SumRemove(front, k, w);
      assert without[..|without| - 1] == front[..k] + front[k + 1..];
    }
  }

  /** Two enumerations of the same states have the same length and sum. */
  lemma {:induction false} SameSum<S>(a: seq<S>, b: seq<S>, w: S -> nat)
    requires Distinct(a) && Distinct(b) && forall x :: x in a <==> x in b
    ensures |a| == |b| && Sum(a, w) == Sum(b, w)
    decreases |a|
  {
    assert |b| > 0 ==> b[0] in b;
    if a != [] {
      var x, front := a[|a| - 1], a[..|a| - 1];
      assert x in a;
      var k :| 0 <= k < |b| && b[k] == x;
      var without := b[..k] + b[k + 1..];
      SumRemove(b, k, w);
      forall y
        ensures y in front <==> y in without
      {
        assert y in a <==> y in front || y == x;
        assert y in b <==> y in without || y == x;
        assert x !in front && x !in without;
      }
      SameSum(front, without, w);
    }
  }

  function Count(b: bool): nat { if b then 1 else 0 }

  function RaisingCount<S, A>(sys: System<S, A>, s: S, acts: seq<A>): nat {
    if acts == [] then 0 else RaisingCount(sys, s, acts[..|acts| - 1]) + Count(sys.step(s, acts[|acts| - 1]).None?)
  }

  lemma {:induction false} RaisingCountAppend<S, A>(sys: System<S, A>, s: S, a: seq<A>, b: seq<A>)
    ensures RaisingCount(sys, s, a + b) == RaisingCount(sys, s, a) + RaisingCount(sys, s, b)
  {
    if b == [] {
      assert a + b == a;
    } else {
      RaisingCountAppend(sys, s, a, b[..|b| - 1]);
      assert (a + b)[..|a + b| - 1] == a + b[..|b| - 1];
    }
  }

  lemma {:induction false} RaisingCountReverse<S, A>(sys: System<S, A>, s: S, acts: seq<A>)
    ensures RaisingCount(sys, s, Reverse(acts)) == RaisingCount(sys, s, acts)
  {
    if acts != [] {
      RaisingCountReverse(sys, s, acts[1..]);
      RaisingCountAppend(sys, s, Reverse(acts[1..]), [acts[0]]);
      RaisingCountAppend(sys, s, [acts[0]], acts[1..]);
      assert acts == [acts[0]] + acts[1..];
    }
  }

  lemma {:induction false} RaisingLength<S, A>(sys: System<S, A>, node: Node<S, A>, acts: seq<A>)
    ensures |Raising(sys, node, acts)| == RaisingCount(sys, node.state, acts)
  {
    if acts != [] { RaisingLength(sys, node, acts[..|acts| - 1]); }
  }

  /** How many violations a state yields when it is not cut off by the bound. */
  function Faults<S, A>(sys: System<S, A>, s: S): nat {
    if sys.broken(s).Some? then 1 else RaisingCount(sys, s, sys.actions(s))
  }

  function Stops<S, A>(sys: System<S, A>, s: S): nat {
    Count(sys.broken(s).None? && sys.actions(s) == [])
  }

  function States<S, A>(nodes: seq<Node<S, A>>): (states: seq<S>)
    ensures |states| == |nodes| && forall j :: 0 <= j < |nodes| ==> states[j] == nodes[j].state
  {
    seq(|nodes|, j requires 0 <= j < |nodes| => nodes[j].state)
  }

  ghost predicate Uncut<S, A>(maxDepth: int, nodes: seq<Node<S, A>>) {
    forall j :: 0 <= j < |nodes| ==> nodes[j].depth < maxDepth
  }

  lemma {:induction false} CountFindings<S, A>(sys: System<S, A>, maxDepth: int, backwards: bool, order: seq<Node<S, A>>)
    requires Uncut(maxDepth, order)
    ensures |AllFindings(sys, maxDepth, backwards, order)| == Sum(States(order), s => Faults(sys, s))
    ensures |AllStuck(sys, maxDepth, order)| == Sum(States(order), s => Stops(sys, s))
  {
    if order != [] {
      var front, node := order[..|order| - 1], order[|order| - 1];
      CountFindings(sys, maxDepth, backwards, front);
      assert States(order)[..|order| - 1] == States(front);
      var acts := sys.actions(node.state);
      RaisingLength(sys, node, if backwards then Reverse(acts) else acts);
      RaisingCountReverse(sys, node.state, acts);
    }
  }

  lemma {:induction false} DeepestBounds<S, A>(order: seq<Node<S, A>>, j: nat)
    requires j < |order|
    ensures order[j].depth <= Deepest(order)
  {
    if j < |order| - 1 {
      var front := order[..|order| - 1];
      assert front[j] == order[j];
      DeepestBounds(front, j);
    }
  }

  /** An exhaustive, uncut depth-first search has popped every state at the end
      of a clean path. */
  lemma {:induction false} DfsReaches<S, A>(sys: System<S, A>, init: S, maxDepth: int, order: seq<Node<S, A>>, seen: set<S>, path: seq<A>) returns (j: nat)
    requires Dive(sys, init, maxDepth, order, [], seen, |order|) && Uncut(maxDepth, order)
    requires CleanTo(sys, init, path).Some?
    ensures j < |order| && order[j].state == CleanTo(sys, init, path).value
  {
    if path == [] {
      assert Holds(order, init) || Holds<S, A>([], init);
      j :| 0 <= j < |order| && order[j].state == init;
    } else {
      var front, last := path[..|path| - 1], path[|path| - 1];
      var i := DfsReaches(sys, init, maxDepth, order, seen, front);
      assert ClosedAt(sys, maxDepth, order[i], seen);
      var acts := Backwards(sys, order[i]);
      ReverseMember(sys.actions(order[i].state), last);
      var k :| 0 <= k < |acts| && acts[k] == last;
      assert SuccessorSeen(sys, order[i], acts, k, seen);
      var t := CleanTo(sys, init, path).value;
      assert Holds(order, t) || Holds<S, A>([], t);
      j :| 0 <= j < |order| && order[j].state == t;
    }
  }

  lemma SubsetLength<S>(a: seq<S>, b: seq<S>)
    requires Distinct(a) && forall x :: x in a ==> x in b
    ensures |a| <= |b|
    decreases |a|
  {
    if a != [] {
      var x, front := a[|a| - 1], a[..|a| - 1];
      assert x in a;
      var k :| 0 <= k < |b| && b[k] == x;
      var without := b[..k] + b[k + 1..];
      forall y | y in front
        ensures y in without
      {
        assert y in b && y != x;
      }
      SubsetLength(front, without);
    }
  }

  /** If depth-first search hits neither the budget nor the depth bound, then
      breadth-first search on the same inputs explores exactly the same states
      and reports equally many violations and deadlocks, hence the same verdict. */
  lemma SearchesAgree<S, A>(sys: System<S, A>, init: S, maxStates: int, maxDepth: int,
                            b: Report<A>, found: seq<Node<S, A>>, dist: map<S, nat>,
                            d: Report<A>, order: seq<Node<S, A>>, rest: seq<Node<S, A>>, seen: set<S>)
    requires BfsRun(sys, init, maxStates, maxDepth, b, found, dist)
    requires DfsRun(sys, init, maxStates, maxDepth, d, order, rest, seen)
    requires d.visited < maxStates && d.maxDepth < maxDepth
    ensures b.visited == d.visited == |found| && (forall s :: s in States(found) <==> s in States(order))
    ensures |b.violations| == |d.violations| && |b.deadlocks| == |d.deadlocks|
    ensures b.Ok() <==> d.Ok()
  {
    var fs, os := States(found), States(order);
    DfsUncut(sys, init, maxStates, maxDepth, d, order, rest, seen);
    BfsInDfs(sys, init, maxDepth, found, dist, order, seen);
    SubsetLength(fs, os);
    assert b.visited == |found| && found[..b.visited] == found;
    DfsInBfs(sys, init, maxDepth, found, dist, order, seen, d.maxDepth);
    SameSum(fs, os, s => Faults(sys, s));
    SameSum(fs, os, s => Stops(sys, s));
    CountFindings(sys, maxDepth, false, found);
    CountFindings(sys, maxDepth, true, order);
  }

  lemma DfsUncut<S, A>(sys: System<S, A>, init: S, maxStates: int, maxDepth: int,
                       d: Report<A>, order: seq<Node<S, A>>, rest: seq<Node<S, A>>, seen: set<S>)
    requires DfsRun(sys, init, maxStates, maxDepth, d, order, rest, seen)
    requires d.visited < maxStates && d.maxDepth < maxDepth
    ensures Dive(sys, init, maxDepth, order, [], seen, |order|) && Uncut(maxDepth, order) && Distinct(States(order))
    ensures forall j :: 0 <= j < |order| ==> order[j].depth <= d.maxDepth
  {
    forall j | 0 <= j < |order|
      ensures order[j].depth <= d.maxDepth
    {
      DeepestBounds(order, j);
    }
    forall i, j | 0 <= i < j < |order|
      ensures States(order)[i] != States(order)[j]
    {
      assert PoppedAt(sys, init, maxDepth, order, seen, j);
    }
  }

  lemma BfsInDfs<S, A>(sys: System<S, A>, init: S, maxDepth: int, found: seq<Node<S, A>>, dist: map<S, nat>, order: seq<Node<S, A>>, seen: set<S>)
    requires Layered(sys, init, maxDepth, found, dist)
    requires Dive(sys, init, maxDepth, order, [], seen, |order|) && Uncut(maxDepth, order)
    ensures Distinct(States(found)) && forall s :: s in States(found) ==> s in States(order)
  {
    forall i, j | 0 <= i < j < |found|
      ensures States(found)[i] != States(found)[j]
    {
      assert LayeredAt(sys, init, maxDepth, found, dist, j);
    }
    forall s | s in States(found)
      ensures s in States(order)
    {
      var i :| 0 <= i < |found| && States(found)[i] == s;
      assert LayeredAt(sys, init, maxDepth, found, dist, i);
      var j := DfsReaches(sys, init, maxDepth, order, seen, found[i].path);
      assert States(order)[j] == s;
    }
  }

  lemma DfsInBfs<S, A>(sys: System<S, A>, init: S, maxDepth: int, found: seq<Node<S, A>>, dist: map<S, nat>,
                       order: seq<Node<S, A>>, seen: set<S>, deepest: nat)
    requires Layered(sys, init, maxDepth, found, dist) && Processed(sys, maxDepth, found, |found|, dist)
    requires Dive(sys, init, maxDepth, order, [], seen, |order|) && deepest < maxDepth
    requires forall j :: 0 <= j < |order| ==> order[j].depth <= deepest
    requires forall s :: s in States(found) ==> s in States(order)
    ensures (forall s :: s in States(order) ==> s in States(found)) && Uncut(maxDepth, found)
  {
    forall i | 0 <= i < |order|
      ensures exists j :: 0 <= j < |found| && found[j].state == order[i].state && found[j].depth <= deepest
    {
      assert PoppedAt(sys, init, maxDepth, order, seen, i);
      var j := FoundIndex(sys, init, maxDepth, found, |found|, dist, order[i].path);
    }
    forall s | s in States(order)
      ensures s in States(found)
    {
      var i :| 0 <= i < |order| && States(order)[i] == s;
      var j :| 0 <= j < |found| && found[j].state == order[i].state;
      assert States(found)[j] == s;
    }
    forall k | 0 <= k < |found|
      ensures found[k].depth < maxDepth
    {
      assert States(found)[k] in States(order);
      var i :| 0 <= i < |order| && States(order)[i] == States(found)[k];
      var j :| 0 <= j < |found| && found[j].state == order[i].state && found[j].depth <= deepest;
      assert LayeredAt(sys, init, maxDepth, found, dist, j) && LayeredAt(sys, init, maxDepth, found, dist, k);
    }
  }
}
