/** The explicit-state explorers of rfsn_kernel/model_check.py.

    `actions`, `step` and `broken` are the caller's get_actions, transition and
    check_invariant; a transition that raises is a step to None. The state
    fingerprint is taken to be injective, so the visited set holds states. */
module ModelCheck {
  import opened Common
  import DF = DepthFirst

  datatype System<!S, !A> = System(actions: S -> seq<A>, step: (S, A) -> Option<S>, broken: S -> Option<string>)

  datatype Node<S, A> = Node(state: S, depth: nat, path: seq<A>)

  datatype Cause = Broken(message: string) | Raised

  datatype Finding<A> = Finding(depth: nat, path: seq<A>, cause: Cause)

  datatype Deadlock<A> = Deadlock(depth: nat, path: seq<A>)

  datatype Report<A> = Report(visited: nat, deadlocks: seq<Deadlock<A>>, violations: seq<Finding<A>>, maxDepth: nat)
  {
    predicate Ok() { violations == [] && deadlocks == [] }
  }

  // -------------------------------------------------------------- the system

  /** The state reached by a path of enabled actions that do not raise. */
  ghost function After<S, A>(sys: System<S, A>, s: S, path: seq<A>): Option<S> {
    if path == [] then Some(s)
    else
      var last := path[|path| - 1];
      match After(sys, s, path[..|path| - 1])
      case None => None
      case Some(p) => if last in sys.actions(p) then sys.step(p, last) else None
  }

  /** As `After`, but every state left on the way satisfies the invariant. */
  ghost function CleanTo<S, A>(sys: System<S, A>, s: S, path: seq<A>): Option<S> {
    if path == [] then Some(s)
    else
      var last := path[|path| - 1];
      match CleanTo(sys, s, path[..|path| - 1])
      case None => None
      case Some(p) => if sys.broken(p).None? && last in sys.actions(p) then sys.step(p, last) else None
  }

  ghost predicate EndsBroken<S, A>(sys: System<S, A>, s: S, path: seq<A>) {
    After(sys, s, path).Some? && sys.broken(After(sys, s, path).value).Some?
  }

  ghost predicate EndsRaising<S, A>(sys: System<S, A>, s: S, path: seq<A>) {
    path != [] &&
    match After(sys, s, path[..|path| - 1])
    case None => false
    case Some(p) => path[|path| - 1] in sys.actions(p) && sys.step(p, path[|path| - 1]).None?
  }

  /** A run that ends in a state breaking the invariant or in an action that raises. */
  ghost predicate Faulty<S, A>(sys: System<S, A>, s: S, path: seq<A>) {
    EndsBroken(sys, s, path) || EndsRaising(sys, s, path)
  }

  /** No enabled action raises. */
  ghost predicate NeverRaises<S(!new), A(!new)>(sys: System<S, A>) {
    forall s, a :: a in sys.actions(s) ==> sys.step(s, a).Some?
  }

  lemma {:induction false} CleanIsRun<S, A>(sys: System<S, A>, s: S, path: seq<A>)
    requires CleanTo(sys, s, path).Some?
    ensures After(sys, s, path) == CleanTo(sys, s, path)
  {
    if path != [] { CleanIsRun(sys, s, path[..|path| - 1]); }
  }

  /** A run is clean, or some proper prefix of it is clean and ends broken. */
  lemma {:induction false} CleanOrBrokenEarlier<S, A>(sys: System<S, A>, s: S, path: seq<A>) returns (k: nat)
    requires After(sys, s, path).Some?
    ensures k <= |path| && CleanTo(sys, s, path[..k]).Some?
    ensures k == |path| || sys.broken(CleanTo(sys, s, path[..k]).value).Some?
    ensures k == |path| ==> CleanTo(sys, s, path) == After(sys, s, path)
  {
    if path == [] {
      k := 0;
    } else {
      var front := path[..|path| - 1];
      k := CleanOrBrokenEarlier(sys, s, front);
      assert front[..k] == path[..k];
      if k == |front| && sys.broken(After(sys, s, front).value).None? {
        k := |path|;
        assert path[..k] == path;
      }
    }
  }

  // ------------------------------------------------------- what a node yields

  function Reverse<T>(s: seq<T>): seq<T> {
    if s == [] then [] else Reverse(s[1..]) + [s[0]]
  }

  /** The raising actions among `acts`, each reported one step deeper. */
  function Raising<S, A>(sys: System<S, A>, node: Node<S, A>, acts: seq<A>): seq<Finding<A>> {
    if acts == [] then []
    else
      var last := acts[|acts| - 1];
      Raising(sys, node, acts[..|acts| - 1])
      + (if sys.step(node.state, last).None? then [Finding(node.depth + 1, node.path + [last], Raised)] else [])
  }

  predicate Expanded<S, A>(sys: System<S, A>, maxDepth: int, node: Node<S, A>) {
    sys.broken(node.state).None? && node.depth < maxDepth
  }

  function Findings<S, A>(sys: System<S, A>, maxDepth: int, backwards: bool, node: Node<S, A>): seq<Finding<A>> {
    match sys.broken(node.state)
    case Some(message) => [Finding(node.depth, node.path, Broken(message))]
    case None =>
      if node.depth >= maxDepth then []
      else Raising(sys, node, if backwards then Reverse(sys.actions(node.state)) else sys.actions(node.state))
  }

  function Stuck<S, A>(sys: System<S, A>, maxDepth: int, node: Node<S, A>): seq<Deadlock<A>> {
    if Expanded(sys, maxDepth, node) && sys.actions(node.state) == [] then [Deadlock(node.depth, node.path)] else []
  }

  function AllFindings<S, A>(sys: System<S, A>, maxDepth: int, backwards: bool, order: seq<Node<S, A>>): seq<Finding<A>> {
    if order == [] then []
    else AllFindings(sys, maxDepth, backwards, order[..|order| - 1])
         + Findings(sys, maxDepth, backwards, order[|order| - 1])
  }

  function AllStuck<S, A>(sys: System<S, A>, maxDepth: int, order: seq<Node<S, A>>): seq<Deadlock<A>> {
    if order == [] then []
    else AllStuck(sys, maxDepth, order[..|order| - 1]) + Stuck(sys, maxDepth, order[|order| - 1])
  }

  function Deepest<S, A>(order: seq<Node<S, A>>): nat {
    if order == [] then 0
    else
      var d := Deepest(order[..|order| - 1]);
      if order[|order| - 1].depth > d then order[|order| - 1].depth else d
  }

  /** The report is exactly what exploring these nodes in this order yields. */
  ghost predicate Reports<S, A>(sys: System<S, A>, maxDepth: int, backwards: bool, order: seq<Node<S, A>>, r: Report<A>) {
    && r.visited == |order|
    && r.violations == AllFindings(sys, maxDepth, backwards, order)
    && r.deadlocks == AllStuck(sys, maxDepth, order)
    && r.maxDepth == Deepest(order)
  }

  /** The node's path is clean, leads to its state and is as long as its depth. */
  ghost predicate Placed<S, A>(sys: System<S, A>, init: S, maxDepth: int, node: Node<S, A>) {
    CleanTo(sys, init, node.path) == Some(node.state) && |node.path| == node.depth
    && (node.depth <= maxDepth || node.depth == 0)
  }

  lemma ChildPlaced<S, A>(sys: System<S, A>, init: S, maxDepth: int, node: Node<S, A>, a: A, t: S)
    requires Placed(sys, init, maxDepth, node) && Expanded(sys, maxDepth, node)
    requires a in sys.actions(node.state) && sys.step(node.state, a) == Some(t)
    ensures Placed(sys, init, maxDepth, Node(t, node.depth + 1, node.path + [a]))
  {
    assert (node.path + [a])[..|node.path|] == node.path;
  }

  // ------------------------------------------------------------ breadth first

  /** The successor by the k-th action is found, at most one layer below. */
  ghost predicate SuccessorFound<S, A>(sys: System<S, A>, node: Node<S, A>, acts: seq<A>, k: nat, dist: map<S, nat>)
    requires k < |acts|
  {
    match sys.step(node.state, acts[k])
    case None => true
    case Some(t) => t in dist && dist[t] <= node.depth + 1
  }

  ghost predicate SuccessorsFound<S, A>(sys: System<S, A>, node: Node<S, A>, upTo: nat, dist: map<S, nat>)
  {
    var acts := sys.actions(node.state);
    forall k :: 0 <= k < upTo && k < |acts| ==> SuccessorFound(sys, node, acts, k, dist)
  }

  /** Where the j-th discovery stands: it is placed, its layer is recorded, and
      no earlier discovery is the same state or lies deeper. */
  ghost predicate LayeredAt<S, A>(sys: System<S, A>, init: S, maxDepth: int, found: seq<Node<S, A>>, dist: map<S, nat>, j: nat)
    requires j < |found|
  {
    && Placed(sys, init, maxDepth, found[j])
    && found[j].state in dist && dist[found[j].state] == found[j].depth
    && forall i :: 0 <= i < j ==> found[i].state != found[j].state && found[i].depth <= found[j].depth
  }

  ghost predicate Layered<S, A>(sys: System<S, A>, init: S, maxDepth: int, found: seq<Node<S, A>>, dist: map<S, nat>) {
    && 0 < |found| && found[0] == Node(init, 0, [])
    && (forall j :: 0 <= j < |found| ==> LayeredAt(sys, init, maxDepth, found, dist, j))
    && (forall s :: s in dist ==> exists j :: 0 <= j < |found| && found[j].state == s)
  }

  ghost predicate ProcessedAt<S, A>(sys: System<S, A>, maxDepth: int, node: Node<S, A>, dist: map<S, nat>) {
    Expanded(sys, maxDepth, node) ==> SuccessorsFound(sys, node, |sys.actions(node.state)|, dist)
  }

  ghost predicate Processed<S, A>(sys: System<S, A>, maxDepth: int, found: seq<Node<S, A>>, n: nat, dist: map<S, nat>)
    requires n <= |found|
  {
    forall i :: 0 <= i < n ==> ProcessedAt(sys, maxDepth, found[i], dist)
  }

  /** Nothing found lies more than one layer below the node popped last. */
  ghost predicate Near<S, A>(found: seq<Node<S, A>>, n: nat)
    requires n <= |found|
  {
    forall j :: 0 <= j < |found| ==> found[j].depth <= (if n == 0 then 0 else found[n - 1].depth + 1)
  }

  /** The search between two pops: `n` nodes have been popped and processed. */
  ghost predicate Wave<S, A>(sys: System<S, A>, init: S, maxDepth: int, found: seq<Node<S, A>>, n: nat, dist: map<S, nat>) {
    n <= |found| && Layered(sys, init, maxDepth, found, dist) && Near(found, n) && Processed(sys, maxDepth, found, n, dist)
  }

  /** The search while it expands the n-th node, with `k` of its actions taken. */
  ghost predicate MidWave<S, A>(sys: System<S, A>, init: S, maxDepth: int, found: seq<Node<S, A>>, n: nat, dist: map<S, nat>, k: nat) {
    && n < |found| && Layered(sys, init, maxDepth, found, dist) && Near(found, n + 1)
    && Processed(sys, maxDepth, found, n, dist)
    && Expanded(sys, maxDepth, found[n]) && SuccessorsFound(sys, found[n], k, dist)
  }

  lemma PopNode<S, A>(sys: System<S, A>, init: S, maxDepth: int, found: seq<Node<S, A>>, n: nat, dist: map<S, nat>)
    requires n < |found| && Wave(sys, init, maxDepth, found, n, dist)
    ensures Expanded(sys, maxDepth, found[n]) ==> MidWave(sys, init, maxDepth, found, n, dist, 0)
    ensures !Expanded(sys, maxDepth, found[n]) ==> Wave(sys, init, maxDepth, found, n + 1, dist)
  {
    forall j | 0 <= j < |found|
      ensures found[j].depth <= found[n].depth + 1
    {
      if n > 0 { assert LayeredAt(sys, init, maxDepth, found, dist, n); }
    }
  }

  lemma StartWave<S, A>(sys: System<S, A>, init: S, maxDepth: int)
    ensures var found := [Node(init, 0, [])];
            Wave(sys, init, maxDepth, found, 0, map[init := 0])
            && Reports(sys, maxDepth, false, found[..0], Report(0, [], [], 0))
  {
    var found := [Node(init, 0, [])];
    assert LayeredAt(sys, init, maxDepth, found, map[init := 0], 0);
  }

  lemma FinishNode<S, A>(sys: System<S, A>, init: S, maxDepth: int, found: seq<Node<S, A>>, n: nat, dist: map<S, nat>)
    requires n < |found| && MidWave(sys, init, maxDepth, found, n, dist, |sys.actions(found[n].state)|)
    ensures Wave(sys, init, maxDepth, found, n + 1, dist)
  {
  }

  lemma SkipAction<S, A>(sys: System<S, A>, init: S, maxDepth: int, found: seq<Node<S, A>>, n: nat, dist: map<S, nat>, k: nat)
    requires MidWave(sys, init, maxDepth, found, n, dist, k) && k < |sys.actions(found[n].state)|
    requires match sys.step(found[n].state, sys.actions(found[n].state)[k]) case None => true case Some(t) => t in dist
    ensures MidWave(sys, init, maxDepth, found, n, dist, k + 1)
  {
    match sys.step(found[n].state, sys.actions(found[n].state)[k])
    case None =>
    case Some(t) =>
      var j :| 0 <= j < |found| && found[j].state == t;
      assert LayeredAt(sys, init, maxDepth, found, dist, j);
  }

  lemma LayeredGrows<S, A>(sys: System<S, A>, init: S, maxDepth: int, found: seq<Node<S, A>>, dist: map<S, nat>, child: Node<S, A>)
    requires Layered(sys, init, maxDepth, found, dist) && Placed(sys, init, maxDepth, child) && child.state !in dist
    requires forall j :: 0 <= j < |found| ==> found[j].depth <= child.depth
    ensures Layered(sys, init, maxDepth, found + [child], dist[child.state := child.depth])
  {
    var found', dist' := found + [child], dist[child.state := child.depth];
    forall j | 0 <= j < |found'|
      ensures LayeredAt(sys, init, maxDepth, found', dist', j)
    {
      if j < |found| {
        assert LayeredAt(sys, init, maxDepth, found, dist, j);
      } else {
        forall i | 0 <= i < j
          ensures found'[i].state != child.state
        {
          assert LayeredAt(sys, init, maxDepth, found, dist, i);
        }
      }
    }
    forall s | s in dist'
      ensures exists j :: 0 <= j < |found'| && found'[j].state == s
    {
      if s == child.state {
        assert found'[|found|].state == s;
      } else {
        var j :| 0 <= j < |found| && found[j].state == s;
        assert found'[j].state == s;
      }
    }
  }

  lemma SuccessorsStayFound<S, A>(sys: System<S, A>, node: Node<S, A>, upTo: nat, dist: map<S, nat>, t: S, depth: nat)
    requires SuccessorsFound(sys, node, upTo, dist) && t !in dist
    ensures SuccessorsFound(sys, node, upTo, dist[t := depth])
  {
    var acts := sys.actions(node.state);
    var dist' := dist[t := depth];
    forall k | 0 <= k < upTo && k < |acts|
      ensures SuccessorFound(sys, node, acts, k, dist')
    {
      assert SuccessorFound(sys, node, acts, k, dist);
    }
  }

  lemma FindChild<S, A>(sys: System<S, A>, init: S, maxDepth: int, found: seq<Node<S, A>>, n: nat, dist: map<S, nat>,
                        k: nat, t: S, child: Node<S, A>)
    requires MidWave(sys, init, maxDepth, found, n, dist, k) && k < |sys.actions(found[n].state)|
    requires sys.step(found[n].state, sys.actions(found[n].state)[k]) == Some(t) && t !in dist
    requires child == Node(t, found[n].depth + 1, found[n].path + [sys.actions(found[n].state)[k]])
    ensures MidWave(sys, init, maxDepth, found + [child], n, dist[t := child.depth], k + 1)
  {
    var found', dist' := found + [child], dist[t := child.depth];
    var acts := sys.actions(found[n].state);
    assert LayeredAt(sys, init, maxDepth, found, dist, n);
    ChildPlaced(sys, init, maxDepth, found[n], acts[k], t);
    LayeredGrows(sys, init, maxDepth, found, dist, child);
    forall i | 0 <= i < n
      ensures ProcessedAt(sys, maxDepth, found'[i], dist')
    {
      assert ProcessedAt(sys, maxDepth, found[i], dist);
      if Expanded(sys, maxDepth, found[i]) {
        SuccessorsStayFound(sys, found[i], |sys.actions(found[i].state)|, dist, t, child.depth);
      }
    }
    SuccessorsStayFound(sys, found[n], k, dist, t, child.depth);
    assert SuccessorFound(sys, found'[n], acts, k, dist');
  }

  ghost predicate BfsRun<S, A>(sys: System<S, A>, init: S, maxStates: int, maxDepth: int, r: Report<A>,
                               found: seq<Node<S, A>>, dist: map<S, nat>)
  {
    && Wave(sys, init, maxDepth, found, r.visited, dist)
    && (r.visited < maxStates ==> r.visited == |found|)
    && Reports(sys, maxDepth, false, found[..r.visited], r)
  }

  /** The report after one more node, given what that node yields. */
  lemma ReportNode<S, A>(sys: System<S, A>, maxDepth: int, backwards: bool, order: seq<Node<S, A>>, node: Node<S, A>, r: Report<A>, r': Report<A>)
    requires Reports(sys, maxDepth, backwards, order, r)
    requires r' == Report(r.visited + 1, r.deadlocks + Stuck(sys, maxDepth, node),
                          r.violations + Findings(sys, maxDepth, backwards, node),
                          if node.depth > r.maxDepth then node.depth else r.maxDepth)
    ensures Reports(sys, maxDepth, backwards, order + [node], r')
  {
    assert (order + [node])[..|order|] == order;
  }

  /** The discoveries after taking `acts` from a node: each successor that was not
      found before, in order. */
  ghost function Enqueued<S, A>(sys: System<S, A>, found: seq<Node<S, A>>, node: Node<S, A>, acts: seq<A>): seq<Node<S, A>> {
    if acts == [] then found
    else
      var last, sofar := acts[|acts| - 1], Enqueued(sys, found, node, acts[..|acts| - 1]);
      match sys.step(node.state, last)
      case None => sofar
      case Some(t) => if Holds(sofar, t) then sofar else sofar + [Node(t, node.depth + 1, node.path + [last])]
  }

  /** The discoveries of breadth-first search, in order, after `n` pops. */
  ghost function Discovered<S, A>(sys: System<S, A>, init: S, maxDepth: int, n: nat): seq<Node<S, A>> {
    if n == 0 then [Node(init, 0, [])]
    else
      var found := Discovered(sys, init, maxDepth, n - 1);
      if n - 1 < |found| && Expanded(sys, maxDepth, found[n - 1])
      then Enqueued(sys, found, found[n - 1], sys.actions(found[n - 1].state)) else found
  }

  lemma DiscoveredNext<S, A>(sys: System<S, A>, init: S, maxDepth: int, n: nat, found: seq<Node<S, A>>)
    requires found == Discovered(sys, init, maxDepth, n) && n < |found|
    ensures var next, acts := Discovered(sys, init, maxDepth, n + 1), sys.actions(found[n].state);
            && (Expanded(sys, maxDepth, found[n]) && acts != [] ==> next == Enqueued(sys, found, found[n], acts))
            && (!Expanded(sys, maxDepth, found[n]) || acts == [] ==> next == found)
  {
  }

  lemma StartDiscovered<S, A>(sys: System<S, A>, init: S, maxDepth: int)
    ensures Discovered(sys, init, maxDepth, 0) == [Node(init, 0, [])]
  {
  }

  lemma LayeredHolds<S, A>(sys: System<S, A>, init: S, maxDepth: int, found: seq<Node<S, A>>, dist: map<S, nat>, t: S)
    requires Layered(sys, init, maxDepth, found, dist)
    ensures t in dist <==> Holds(found, t)
  {
    if Holds(found, t) {
      var j :| 0 <= j < |found| && found[j].state == t;
      assert LayeredAt(sys, init, maxDepth, found, dist, j);
    }
  }

  /** The loop over a popped node's actions: every successor not seen before is
      enqueued, and every action that raises is reported. */
  method ExpandBfs<S(==, !new), A(!new)>(sys: System<S, A>, maxDepth: int, node: Node<S, A>, visited: set<S>, queue: seq<Node<S, A>>,
                                         ghost init: S, ghost found: seq<Node<S, A>>, ghost n: nat, ghost dist: map<S, nat>)
    returns (visited': set<S>, queue': seq<Node<S, A>>, raised: seq<Finding<A>>, ghost found': seq<Node<S, A>>, ghost dist': map<S, nat>)
    requires MidWave(sys, init, maxDepth, found, n, dist, 0) && dist.Keys == visited
    requires node == found[n] && queue == found[n + 1..]
    ensures MidWave(sys, init, maxDepth, found', n, dist', |sys.actions(node.state)|) && dist'.Keys == visited'
    ensures found <= found' && queue' == found'[n + 1..]
    ensures found' == Enqueued(sys, found, node, sys.actions(node.state))
    ensures raised == Raising(sys, node, sys.actions(node.state))
  {
    hide Layered, Near, Processed, SuccessorsFound, Holds;
    visited', queue', raised, found', dist' := visited, queue, [], found, dist;
    var actions := sys.actions(node.state);
    for k := 0 to |actions|
      invariant MidWave(sys, init, maxDepth, found', n, dist', k) && dist'.Keys == visited'
      invariant found <= found' && queue' == found'[n + 1..]
      invariant found' == Enqueued(sys, found, node, actions[..k])
      invariant raised == Raising(sys, node, actions[..k])
    {
      var action := actions[k];
      assert actions[..k + 1][..k] == actions[..k];
      var next := sys.step(node.state, action);
      if next.None? {
        raised := raised + [Finding(node.depth + 1, node.path + [action], Raised)];
        SkipAction(sys, init, maxDepth, found', n, dist', k);
        continue;
      }
      LayeredHolds(sys, init, maxDepth, found', dist', next.value);
      if next.value !in visited' {
        visited' := visited' + {next.value};
        var child := Node(next.value, node.depth + 1, node.path + [action]);
        queue' := queue' + [child];
        FindChild(sys, init, maxDepth, found', n, dist', k, next.value, child);
        found', dist' := found' + [child], dist'[next.value := child.depth];
      } else {
        SkipAction(sys, init, maxDepth, found', n, dist', k);
      }
    }
    assert actions[..|actions|] == actions;
  }

  method ExploreBfs<S(==, !new), A(!new)>(sys: System<S, A>, init: S, maxStates: int, maxDepth: int)
    returns (r: Report<A>, ghost found: seq<Node<S, A>>, ghost dist: map<S, nat>)
    ensures BfsRun(sys, init, maxStates, maxDepth, r, found, dist) && found == Discovered(sys, init, maxDepth, r.visited)
    ensures r.visited <= if maxStates > 0 then maxStates else 0
  {
    hide Layered, Near, Processed, SuccessorsFound, Reports, Enqueued, Discovered;
    StartDiscovered(sys, init, maxDepth);
    var visited, queue := {init}, [Node(init, 0, [])];
    r := Report(0, [], [], 0);
    found, dist := queue, map[init := 0];
    StartWave(sys, init, maxDepth);
    while queue != [] && r.visited < maxStates
      invariant Wave(sys, init, maxDepth, found, r.visited, dist) && dist.Keys == visited
      invariant queue == found[r.visited..] && found == Discovered(sys, init, maxDepth, r.visited)
      invariant Reports(sys, maxDepth, false, found[..r.visited], r)
      invariant r.visited <= if maxStates > 0 then maxStates else 0
      decreases maxStates - r.visited
    {
      ghost var before, n, order := r, r.visited, found[..r.visited];
      var node := queue[0];
      queue := queue[1..];
      PopNode(sys, init, maxDepth, found, n, dist);
      DiscoveredNext(sys, init, maxDepth, n, found);
      r := r.(visited := r.visited + 1, maxDepth := if node.depth > r.maxDepth then node.depth else r.maxDepth);
      var violation := sys.broken(node.state);
      if violation.Some? {
        r := r.(violations := r.violations + [Finding(node.depth, node.path, Broken(violation.value))]);
      } else if node.depth < maxDepth {
        if sys.actions(node.state) == [] {
          r := r.(deadlocks := r.deadlocks + [Deadlock(node.depth, node.path)]);
          FinishNode(sys, init, maxDepth, found, n, dist);
        } else {
          var raised;
          visited, queue, raised, found, dist := ExpandBfs(sys, maxDepth, node, visited, queue, init, found, n, dist);
          r := r.(violations := r.violations + raised);
          FinishNode(sys, init, maxDepth, found, n, dist);
        }
      }
      ReportNode(sys, maxDepth, false, order, node, before, r);
      assert found[..n + 1] == order + [node];
    }
  }

  // -------------------------------------------------------------- depth first

  function Backwards<S, A>(sys: System<S, A>, node: Node<S, A>): seq<A> {
    Reverse(sys.actions(node.state))
  }

  /** The successor by the k-th action, counted from the back, is visited. */
  ghost predicate SuccessorSeen<S, A>(sys: System<S, A>, node: Node<S, A>, acts: seq<A>, k: nat, visited: set<S>)
    requires k < |acts|
  {
    sys.step(node.state, acts[k]).Some? ==> sys.step(node.state, acts[k]).value in visited
  }

  ghost predicate SuccessorsSeen<S, A>(sys: System<S, A>, node: Node<S, A>, upTo: nat, visited: set<S>) {
    var acts := Backwards(sys, node);
    forall k :: 0 <= k < upTo && k < |acts| ==> SuccessorSeen(sys, node, acts, k, visited)
  }

  ghost predicate PoppedAt<S, A>(sys: System<S, A>, init: S, maxDepth: int, order: seq<Node<S, A>>, visited: set<S>, j: nat)
    requires j < |order|
  {
    Placed(sys, init, maxDepth, order[j]) && order[j].state in visited
    && forall i :: 0 <= i < j ==> order[i].state != order[j].state
  }

  ghost predicate StackedAt<S, A>(sys: System<S, A>, init: S, maxDepth: int, order: seq<Node<S, A>>, stack: seq<Node<S, A>>, visited: set<S>, j: nat)
    requires j < |stack|
  {
    Placed(sys, init, maxDepth, stack[j]) && stack[j].state in visited
    && (forall i :: 0 <= i < j ==> stack[i].state != stack[j].state)
    && (forall i :: 0 <= i < |order| ==> order[i].state != stack[j].state)
  }

  ghost predicate Holds<S, A>(nodes: seq<Node<S, A>>, s: S) {
    exists j :: 0 <= j < |nodes| && nodes[j].state == s
  }

  ghost predicate ClosedAt<S, A>(sys: System<S, A>, maxDepth: int, node: Node<S, A>, visited: set<S>) {
    Expanded(sys, maxDepth, node) ==> SuccessorsSeen(sys, node, |Backwards(sys, node)|, visited)
  }

  /** The search with `order` popped, the first `n` of it expanded. */
  ghost predicate Dive<S, A>(sys: System<S, A>, init: S, maxDepth: int, order: seq<Node<S, A>>, stack: seq<Node<S, A>>,
                             visited: set<S>, n: nat)
  {
    && init in visited && n <= |order|
    && (forall j :: 0 <= j < |order| ==> PoppedAt(sys, init, maxDepth, order, visited, j))
    && (forall j :: 0 <= j < |stack| ==> StackedAt(sys, init, maxDepth, order, stack, visited, j))
    && (forall s :: s in visited ==> Holds(order, s) || Holds(stack, s))
    && (forall j :: 0 <= j < n ==> ClosedAt(sys, maxDepth, order[j], visited))
  }

  /** The search while it expands the last popped node, `k` actions taken. */
  ghost predicate MidDive<S, A>(sys: System<S, A>, init: S, maxDepth: int, order: seq<Node<S, A>>, stack: seq<Node<S, A>>,
                                visited: set<S>, k: nat)
  {
    && order != [] && Dive(sys, init, maxDepth, order, stack, visited, |order| - 1)
    && Expanded(sys, maxDepth, order[|order| - 1])
    && SuccessorsSeen(sys, order[|order| - 1], k, visited)
  }

  ghost predicate DfsRun<S, A>(sys: System<S, A>, init: S, maxStates: int, maxDepth: int, r: Report<A>,
                               order: seq<Node<S, A>>, rest: seq<Node<S, A>>, visited: set<S>)
  {
    && Dive(sys, init, maxDepth, order, rest, visited, |order|)
    && (r.visited < maxStates ==> rest == [])
    && Reports(sys, maxDepth, true, order, r)
  }

  lemma StartDive<S, A>(sys: System<S, A>, init: S, maxDepth: int)
    ensures Dive(sys, init, maxDepth, [], [Node(init, 0, [])], {init}, 0)
    ensures Reports(sys, maxDepth, true, [], Report(0, [], [], 0))
  {
    var stack := [Node(init, 0, [])];
    assert StackedAt(sys, init, maxDepth, [], stack, {init}, 0);
    assert stack[0].state == init;
  }

  lemma StartPaths<S, A>(sys: System<S, A>, init: S)
    ensures var root: seq<Node<S, A>> := [Node(init, 0, [])];
            DF.Hangs(TreeOf(sys, init), Paths<S, A>([]), Paths(root))
  {
    var root: seq<Node<S, A>> := [Node(init, 0, [])];
    assert Paths(root) == [[]];
  }

  lemma StillHanging<A>(tree: DF.Tree<A>, popped: seq<seq<A>>, stack: seq<seq<A>>)
    requires DF.Spreading(tree, popped, stack, 0)
    ensures DF.Hangs(tree, popped, stack)
  {
    hide DF.Hangs, DF.ChildPushed;
  }

  lemma InPreorder<A>(tree: DF.Tree<A>, popped: seq<seq<A>>, stack: seq<seq<A>>)
    requires DF.Hangs(tree, popped, stack)
    ensures DF.Preorder(tree, popped)
  {
    hide DF.PreorderAt, DF.HangsAt;
  }

  lemma PopTop<S, A>(sys: System<S, A>, init: S, maxDepth: int, order: seq<Node<S, A>>, stack: seq<Node<S, A>>, visited: set<S>, top: Node<S, A>)
    requires Dive(sys, init, maxDepth, order, stack + [top], visited, |order|)
    ensures Expanded(sys, maxDepth, top) ==> MidDive(sys, init, maxDepth, order + [top], stack, visited, 0)
    ensures !Expanded(sys, maxDepth, top) ==> Dive(sys, init, maxDepth, order + [top], stack, visited, |order| + 1)
  {
    var stack0, order' := stack + [top], order + [top];
    assert StackedAt(sys, init, maxDepth, order, stack0, visited, |stack|);
    forall j | 0 <= j < |order'|
      ensures PoppedAt(sys, init, maxDepth, order', visited, j)
    {
      if j < |order| { assert PoppedAt(sys, init, maxDepth, order, visited, j); }
    }
    forall j | 0 <= j < |stack|
      ensures StackedAt(sys, init, maxDepth, order', stack, visited, j)
    {
      assert StackedAt(sys, init, maxDepth, order, stack0, visited, j);
      assert stack0[j] == stack[j] && top.state != stack[j].state;
      assert forall i :: 0 <= i < j ==> stack0[i] == stack[i];
    }
    forall s | s in visited
      ensures Holds(order', s) || Holds(stack, s)
    {
      if Holds(order, s) {
        var j :| 0 <= j < |order| && order[j].state == s;
        assert order'[j].state == s;
      } else {
        var j :| 0 <= j < |stack0| && stack0[j].state == s;
        if j < |stack| { assert stack[j].state == s; } else { assert order'[|order|].state == s; }
      }
    }
    forall j | 0 <= j < |order|
      ensures ClosedAt(sys, maxDepth, order'[j], visited)
    {
      assert ClosedAt(sys, maxDepth, order[j], visited);
    }
  }

  lemma FinishTop<S, A>(sys: System<S, A>, init: S, maxDepth: int, order: seq<Node<S, A>>, stack: seq<Node<S, A>>, visited: set<S>)
    requires order != [] && MidDive(sys, init, maxDepth, order, stack, visited, |Backwards(sys, order[|order| - 1])|)
    ensures Dive(sys, init, maxDepth, order, stack, visited, |order|)
  {
  }

  lemma SkipBack<S, A>(sys: System<S, A>, init: S, maxDepth: int, order: seq<Node<S, A>>, stack: seq<Node<S, A>>, visited: set<S>, k: nat)
    requires MidDive(sys, init, maxDepth, order, stack, visited, k) && k < |Backwards(sys, order[|order| - 1])|
    requires SuccessorSeen(sys, order[|order| - 1], Backwards(sys, order[|order| - 1]), k, visited)
    ensures MidDive(sys, init, maxDepth, order, stack, visited, k + 1)
  {
  }

  lemma {:induction false} ReverseKeeps<T>(s: seq<T>)
    ensures |Reverse(s)| == |s| && multiset(Reverse(s)) == multiset(s)
  {
    if s != [] {
      ReverseKeeps(s[1..]);
      assert s == [s[0]] + s[1..];
    }
  }

  lemma ReverseMember<T>(s: seq<T>, x: T)
    ensures x in Reverse(s) <==> x in s
  {
    ReverseKeeps(s);
    assert x in Reverse(s) <==> x in multiset(Reverse(s));
  }

  lemma SeenStays<S, A>(sys: System<S, A>, node: Node<S, A>, upTo: nat, visited: set<S>, t: S)
    requires SuccessorsSeen(sys, node, upTo, visited)
    ensures SuccessorsSeen(sys, node, upTo, visited + {t})
  {
    var acts, visited' := Backwards(sys, node), visited + {t};
    forall k | 0 <= k < upTo && k < |acts|
      ensures SuccessorSeen(sys, node, acts, k, visited')
    {
      assert SuccessorSeen(sys, node, acts, k, visited);
    }
  }

  lemma PushChild<S, A>(sys: System<S, A>, init: S, maxDepth: int, order: seq<Node<S, A>>, stack: seq<Node<S, A>>, visited: set<S>,
                        k: nat, child: Node<S, A>)
    requires MidDive(sys, init, maxDepth, order, stack, visited, k) && k < |Backwards(sys, order[|order| - 1])|
    requires var node := order[|order| - 1];
             var a := Backwards(sys, node)[k];
             sys.step(node.state, a) == Some(child.state) && child.state !in visited
             && child.depth == node.depth + 1 && child.path == node.path + [a]
    ensures MidDive(sys, init, maxDepth, order, stack + [child], visited + {child.state}, k + 1)
  {
    var node := order[|order| - 1];
    var acts := Backwards(sys, node);
    var visited', stack' := visited + {child.state}, stack + [child];
    assert PoppedAt(sys, init, maxDepth, order, visited, |order| - 1);
    assert acts[k] in sys.actions(node.state) by {
      ReverseMember(sys.actions(node.state), acts[k]);
    }
    ChildPlaced(sys, init, maxDepth, node, acts[k], child.state);
    forall j | 0 <= j < |order|
      ensures PoppedAt(sys, init, maxDepth, order, visited', j)
    {
      assert PoppedAt(sys, init, maxDepth, order, visited, j);
    }
    forall j | 0 <= j < |stack'|
      ensures StackedAt(sys, init, maxDepth, order, stack', visited', j)
    {
      StackedStays(sys, init, maxDepth, order, stack, visited, child, j);
    }
    forall s | s in visited'
      ensures Holds(order, s) || Holds(stack', s)
    {
      if s == child.state {
        assert stack'[|stack|].state == s;
      } else if Holds(stack, s) {
        var j :| 0 <= j < |stack| && stack[j].state == s;
        assert stack'[j].state == s;
      }
    }
    forall j | 0 <= j < |order| - 1
      ensures ClosedAt(sys, maxDepth, order[j], visited')
    {
      assert ClosedAt(sys, maxDepth, order[j], visited);
      if Expanded(sys, maxDepth, order[j]) { SeenStays(sys, order[j], |Backwards(sys, order[j])|, visited, child.state); }
    }
    SeenStays(sys, node, k, visited, child.state);
    assert SuccessorSeen(sys, node, acts, k, visited');
  }

  lemma StackedStays<S, A>(sys: System<S, A>, init: S, maxDepth: int, order: seq<Node<S, A>>, stack: seq<Node<S, A>>, visited: set<S>,
                           child: Node<S, A>, j: nat)
    requires Dive(sys, init, maxDepth, order, stack, visited, |order|) || (order != [] && Dive(sys, init, maxDepth, order, stack, visited, |order| - 1))
    requires Placed(sys, init, maxDepth, child) && child.state !in visited && j <= |stack|
    ensures StackedAt(sys, init, maxDepth, order, stack + [child], visited + {child.state}, j)
  {
    if j < |stack| {
      assert StackedAt(sys, init, maxDepth, order, stack, visited, j);
    } else {
      forall i | 0 <= i < |stack|
        ensures stack[i].state != child.state
      {
        assert StackedAt(sys, init, maxDepth, order, stack, visited, i);
      }
      forall i | 0 <= i < |order|
        ensures order[i].state != child.state
      {
        assert PoppedAt(sys, init, maxDepth, order, visited, i);
      }
    }
  }

  /** The actions enabled at the end of a clean path. */
  ghost function TreeOf<S, A>(sys: System<S, A>, init: S): DF.Tree<A> {
    path => match CleanTo(sys, init, path) case None => [] case Some(s) => sys.actions(s)
  }

  ghost function Paths<S, A>(nodes: seq<Node<S, A>>): (paths: seq<seq<A>>)
    ensures |paths| == |nodes| && forall j :: 0 <= j < |nodes| ==> paths[j] == nodes[j].path
  {
    seq(|nodes|, j requires 0 <= j < |nodes| => nodes[j].path)
  }

  lemma PathsAppend<S, A>(nodes: seq<Node<S, A>>, node: Node<S, A>)
    ensures Paths(nodes + [node]) == Paths(nodes) + [node.path]
  {
  }

  /** A node popped has a path of its own. */
  lemma PopPath<S, A>(sys: System<S, A>, init: S, maxDepth: int, order: seq<Node<S, A>>, stack: seq<Node<S, A>>, visited: set<S>, top: Node<S, A>)
    requires Dive(sys, init, maxDepth, order, stack + [top], visited, |order|)
    requires DF.Hangs(TreeOf(sys, init), Paths(order), Paths(stack + [top]))
    ensures DF.Spreading(TreeOf(sys, init), Paths(order + [top]), Paths(stack), 0)
  {
    hide DF.Hangs, DF.Spreading;
    assert StackedAt(sys, init, maxDepth, order, stack + [top], visited, |stack|);
    forall i | 0 <= i < |order|
      ensures order[i].path != top.path
    {
      assert PoppedAt(sys, init, maxDepth, order, visited, i);
    }
    PathsAppend(order, top);
    PathsAppend(stack, top);
    DF.PopHangs(TreeOf(sys, init), Paths(order), Paths(stack), top.path);
  }

  lemma {:induction false} ReverseAt<T>(s: seq<T>, k: nat)
    requires k < |s|
    ensures |Reverse(s)| == |s| && Reverse(s)[k] == s[|s| - 1 - k]
  {
    ReverseKeeps(s);
    ReverseKeeps(s[1..]);
    if k < |s| - 1 { ReverseAt(s[1..], k); }
  }

  lemma PushPath<S, A>(sys: System<S, A>, init: S, maxDepth: int, order: seq<Node<S, A>>, stack: seq<Node<S, A>>, visited: set<S>,
                       k: nat, child: Node<S, A>)
    requires MidDive(sys, init, maxDepth, order, stack, visited, k) && k < |Backwards(sys, order[|order| - 1])|
    requires child.path == order[|order| - 1].path + [Backwards(sys, order[|order| - 1])[k]]
    requires DF.Spreading(TreeOf(sys, init), Paths(order), Paths(stack), k)
    ensures DF.Spreading(TreeOf(sys, init), Paths(order), Paths(stack + [child]), k + 1)
  {
    hide DF.Hangs, DF.Spreading;
    var node := order[|order| - 1];
    assert PoppedAt(sys, init, maxDepth, order, visited, |order| - 1);
    ReverseKeeps(sys.actions(node.state));
    ReverseAt(sys.actions(node.state), k);
    PathsAppend(stack, child);
    assert DF.Spreading(TreeOf(sys, init), Paths(order), Paths(stack), k) ==> Paths(order) != [];
    DF.PushHangs(TreeOf(sys, init), Paths(order), Paths(stack), k);
  }

  /** The loop over a popped node's actions from the last to the first. */
  method ExpandDfs<S(==, !new), A(!new)>(sys: System<S, A>, maxDepth: int, node: Node<S, A>, visited: set<S>, stack: seq<Node<S, A>>,
                                         ghost init: S, ghost order: seq<Node<S, A>>)
    returns (visited': set<S>, stack': seq<Node<S, A>>, raised: seq<Finding<A>>)
    requires MidDive(sys, init, maxDepth, order, stack, visited, 0) && node == order[|order| - 1]
    requires DF.Spreading(TreeOf(sys, init), Paths(order), Paths(stack), 0)
    ensures MidDive(sys, init, maxDepth, order, stack', visited', |Backwards(sys, node)|)
    ensures DF.Hangs(TreeOf(sys, init), Paths(order), Paths(stack'))
    ensures raised == Raising(sys, node, Backwards(sys, node))
  {
    hide Dive, SuccessorsSeen, DF.ChildPushed, DF.Hangs, TreeOf;
    visited', stack', raised := visited, stack, [];
    var actions := Reverse(sys.actions(node.state));
    for k := 0 to |actions|
      invariant MidDive(sys, init, maxDepth, order, stack', visited', k)
      invariant DF.Spreading(TreeOf(sys, init), Paths(order), Paths(stack'), k)
      invariant raised == Raising(sys, node, actions[..k])
    {
      var action := actions[k];
      assert actions[..k + 1][..k] == actions[..k];
      var next := sys.step(node.state, action);
      DF.SkipHangs(TreeOf(sys, init), Paths(order), Paths(stack'), k);
      if next.None? {
        raised := raised + [Finding(node.depth + 1, node.path + [action], Raised)];
        SkipBack(sys, init, maxDepth, order, stack', visited', k);
        continue;
      }
      if next.value !in visited' {
        var child := Node(next.value, node.depth + 1, node.path + [action]);
        PushChild(sys, init, maxDepth, order, stack', visited', k, child);
        PushPath(sys, init, maxDepth, order, stack', visited', k, child);
        visited', stack' := visited' + {next.value}, stack' + [child];
      } else {
        SkipBack(sys, init, maxDepth, order, stack', visited', k);
      }
    }
    assert actions[..|actions|] == actions;
  }

  method ExploreDfs<S(==, !new), A(!new)>(sys: System<S, A>, init: S, maxStates: int, maxDepth: int)
    returns (r: Report<A>, ghost order: seq<Node<S, A>>, ghost rest: seq<Node<S, A>>, ghost seen: set<S>)
    ensures DfsRun(sys, init, maxStates, maxDepth, r, order, rest, seen) && DF.Preorder(TreeOf(sys, init), Paths(order))
    ensures r.visited <= if maxStates > 0 then maxStates else 0
  {
    hide Dive, SuccessorsSeen, Reports, DF.Preorder, DF.Spreading, DF.Hangs, TreeOf;
    var visited, stack := {init}, [Node(init, 0, [])];
    r := Report(0, [], [], 0);
    order := [];
    StartDive(sys, init, maxDepth);
    StartPaths(sys, init);
    while stack != [] && r.visited < maxStates
      invariant Dive(sys, init, maxDepth, order, stack, visited, |order|)
      invariant DF.Hangs(TreeOf(sys, init), Paths(order), Paths(stack))
      invariant Reports(sys, maxDepth, true, order, r)
      invariant r.visited <= if maxStates > 0 then maxStates else 0
      decreases maxStates - r.visited
    {
      ghost var before, popped := r, order;
      var node := stack[|stack| - 1];
      assert stack == stack[..|stack| - 1] + [node];
      stack := stack[..|stack| - 1];
      PopPath(sys, init, maxDepth, order, stack, visited, node);
      PopTop(sys, init, maxDepth, order, stack, visited, node);
      StillHanging(TreeOf(sys, init), Paths(order + [node]), Paths(stack));
      order := order + [node];
      r := r.(visited := r.visited + 1, maxDepth := if node.depth > r.maxDepth then node.depth else r.maxDepth);
      var violation := sys.broken(node.state);
      if violation.Some? {
        r := r.(violations := r.violations + [Finding(node.depth, node.path, Broken(violation.value))]);
      } else if node.depth < maxDepth {
        if sys.actions(node.state) == [] {
          r := r.(deadlocks := r.deadlocks + [Deadlock(node.depth, node.path)]);
          FinishTop(sys, init, maxDepth, order, stack, visited);
        } else {
          var raised;
          visited, stack, raised := ExpandDfs(sys, maxDepth, node, visited, stack, init, order);
          r := r.(violations := r.violations + raised);
          FinishTop(sys, init, maxDepth, order, stack, visited);
        }
      }
      ReportNode(sys, maxDepth, true, popped, node, before, r);
    }
    rest, seen := stack, visited;
    InPreorder(TreeOf(sys, init), Paths(order), Paths(stack));
  }
}
