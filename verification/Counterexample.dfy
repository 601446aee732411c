/** The counterexample minimiser of rfsn_kernel/counterexample.py. */
module Counterexample {
  import opened Common
  import opened ModelCheck
  import opened Exploration

  /** Replaying `path`, enabled or not: where it ends and what stopped it. */
  datatype Replay<S> = Replay(state: S, message: Option<string>)

  const RAISED := "Exception"

  /** The replay stops at the first transition that raises and at the first
      violating state it enters; the start itself is not checked. */
  function ReplayFrom<S, A>(sys: System<S, A>, s: S, path: seq<A>): Replay<S> {
    if path == [] then Replay(s, None)
    else
      match sys.step(s, path[0])
      case None => Replay(s, Some(RAISED))
      case Some(t) => if sys.broken(t).Some? then Replay(t, sys.broken(t)) else ReplayFrom(sys, t, path[1..])
  }

  predicate Triggers<S, A>(sys: System<S, A>, s: S, path: seq<A>) {
    ReplayFrom(sys, s, path).message.Some?
  }

  function Without<A>(path: seq<A>, i: nat): seq<A>
    requires i < |path|
  {
    path[..i] + path[i + 1..]
  }

  /** `a` is obtained from `b` by leaving actions out. */
  ghost predicate Subsequence<A>(a: seq<A>, b: seq<A>) {
    a == [] || (b != [] && ((a[0] == b[0] && Subsequence(a[1..], b[1..])) || Subsequence(a, b[1..])))
  }

  ghost predicate OneMinimal<S, A>(sys: System<S, A>, s: S, path: seq<A>) {
    forall i :: 0 <= i < |path| ==> !Triggers(sys, s, Without(path, i))
  }

  lemma {:induction false} SubsequenceSelf<A>(a: seq<A>)
    ensures Subsequence(a, a)
  {
    if a != [] { SubsequenceSelf(a[1..]); }
  }

  lemma {:induction false} SubsequenceLength<A>(a: seq<A>, b: seq<A>)
    requires Subsequence(a, b)
    ensures |a| <= |b| && (|a| == |b| ==> a == b)
    decreases |b|
  {
    if a != [] {
      if a[0] == b[0] && Subsequence(a[1..], b[1..]) {
        SubsequenceLength(a[1..], b[1..]);
      } else {
        SubsequenceLength(a, b[1..]);
      }
    }
  }

  lemma {:induction false} SubsequenceSkip<A>(a: seq<A>, b: seq<A>, i: nat)
    requires Subsequence(a, b) && i < |a|
    ensures Subsequence(Without(a, i), b)
    decreases |b|
  {
    if a[0] == b[0] && Subsequence(a[1..], b[1..]) {
      if i == 0 {
        assert Without(a, 0) == a[1..];
      } else {
        SubsequenceSkip(a[1..], b[1..], i - 1);
        assert Without(a, i)[1..] == Without(a[1..], i - 1);
      }
    } else {
      SubsequenceSkip(a, b[1..], i);
    }
  }

  /** The loop body of `_triggers_violation`, and of the replay that reads off
      the message and the final state. */
  method RunReplay<S, A>(sys: System<S, A>, init: S, path: seq<A>) returns (r: Replay<S>)
    ensures r == ReplayFrom(sys, init, path)
  {
    var state := init;
    for i := 0 to |path|
      invariant ReplayFrom(sys, init, path) == ReplayFrom(sys, state, path[i..])
    {
      var next := sys.step(state, path[i]);
      if next.None? {
        return Replay(state, Some(RAISED));
      }
      state := next.value;
      assert path[i..][1..] == path[i + 1..];
      if sys.broken(state).Some? {
        return Replay(state, sys.broken(state));
      }
    }
    return Replay(state, None);
  }

  /** The first action without which the path still triggers, if there is one. */
  function FirstSpare<S, A>(sys: System<S, A>, s: S, path: seq<A>, from: nat): (r: Option<nat>)
    requires from <= |path|
    ensures r.Some? ==> from <= r.value < |path| && Triggers(sys, s, Without(path, r.value))
    ensures forall i :: from <= i < (if r.Some? then r.value else |path|) ==> !Triggers(sys, s, Without(path, i))
    decreases |path| - from
  {
    if from == |path| then None
    else if Triggers(sys, s, Without(path, from)) then Some(from)
    else FirstSpare(sys, s, path, from + 1)
  }

  /** Leaving out the first spare action, again and again. */
  function Shrunk<S, A>(sys: System<S, A>, s: S, path: seq<A>): seq<A>
    decreases |path|
  {
    match FirstSpare(sys, s, path, 0)
    case None => path
    case Some(i) => Shrunk(sys, s, Without(path, i))
  }

  lemma FirstSpareIs<S, A>(sys: System<S, A>, s: S, path: seq<A>, r: Option<nat>)
    requires r.Some? ==> r.value < |path| && Triggers(sys, s, Without(path, r.value))
    requires forall i :: 0 <= i < (if r.Some? then r.value else |path|) ==> !Triggers(sys, s, Without(path, i))
    ensures FirstSpare(sys, s, path, 0) == r
  {
    hide Triggers, Without;
  }

  method MinimizePath<S, A>(sys: System<S, A>, init: S, violationPath: seq<A>) returns (p: seq<A>)
    ensures p == Shrunk(sys, init, violationPath)
    ensures Subsequence(p, violationPath)
    ensures OneMinimal(sys, init, p)
    ensures p == violationPath || Triggers(sys, init, p)
    ensures p == violationPath <==> OneMinimal(sys, init, violationPath)
  {
    hide Triggers, FirstSpare;
    SubsequenceSelf(violationPath);
    if violationPath == [] {
      return [];
    }
    p := violationPath;
    var changed := true;
    while changed
      invariant Subsequence(p, violationPath)
      invariant p == violationPath || Triggers(sys, init, p)
      invariant !changed ==> OneMinimal(sys, init, p)
      invariant Shrunk(sys, init, violationPath) == Shrunk(sys, init, p)
      invariant p != violationPath ==> |p| < |violationPath| && !OneMinimal(sys, init, violationPath)
      decreases |p|, changed
    {
      changed := false;
      for i := 0 to |p|
        invariant !changed && forall k :: 0 <= k < i ==> !Triggers(sys, init, Without(p, k))
      {
        var candidate := p[..i] + p[i + 1..];
        var r := RunReplay(sys, init, candidate);
        TriggersIs(sys, init, candidate, r);
        if r.message.Some? {
          FirstSpareIs(sys, init, p, Some(i));
          SubsequenceSkip(p, violationPath, i);
          p := candidate;
          changed := true;
          break;
        }
      }
    }
    FirstSpareIs(sys, init, p, None);
  }

  lemma TriggersIs<S, A>(sys: System<S, A>, s: S, path: seq<A>, r: Replay<S>)
    requires r == ReplayFrom(sys, s, path)
    ensures Triggers(sys, s, path) <==> r.message.Some?
  {
  }

  datatype Reproduction<S, A> = Reproduction(originalLength: nat, minimizedLength: nat, minimizedPath: seq<A>,
                                             violationMessage: Option<string>, finalState: S)

  method GenerateCounterexample<S, A>(sys: System<S, A>, init: S, violationPath: seq<A>) returns (c: Reproduction<S, A>)
    ensures c.originalLength == |violationPath| && c.minimizedLength == |c.minimizedPath| <= |violationPath|
    ensures Subsequence(c.minimizedPath, violationPath) && OneMinimal(sys, init, c.minimizedPath)
    ensures Replay(c.finalState, c.violationMessage) == ReplayFrom(sys, init, c.minimizedPath)
    ensures Triggers(sys, init, violationPath) ==> c.violationMessage.Some?
    ensures c.violationMessage.None? ==> c.minimizedPath == violationPath
  {
    var minimized := MinimizePath(sys, init, violationPath);
    SubsequenceLength(minimized, violationPath);
    var r := RunReplay(sys, init, minimized);
    c := Reproduction(|violationPath|, |minimized|, minimized, r.message, r.state);
  }

  // ----------------------------------------------------- what minimal paths do

  lemma {:induction false} StopsEarly<S, A>(sys: System<S, A>, s: S, path: seq<A>)
    requires path != [] && Triggers(sys, s, path) && !Triggers(sys, s, path[..|path| - 1])
    ensures var front := ReplayFrom(sys, s, path[..|path| - 1]);
            ReplayFrom(sys, s, path) == ReplayFrom(sys, front.state, [path[|path| - 1]])
  {
    if |path| == 1 {
      assert path[..0] == [] && path == [path[0]];
    } else {
      var t := sys.step(s, path[0]).value;
      assert path[..|path| - 1][0] == path[0] && path[..|path| - 1][1..] == path[1..][..|path[1..]| - 1];
      StopsEarly(sys, t, path[1..]);
    }
  }

  /** On a 1-minimal path that violates, the violation occurs exactly at the
      last action: the replay without it is silent, and the last action raises
      or enters the violating state. */
  lemma {:induction false} ViolatesAtTheEnd<S, A>(sys: System<S, A>, init: S, path: seq<A>)
    requires OneMinimal(sys, init, path) && Triggers(sys, init, path)
    ensures path != []
    ensures var front := ReplayFrom(sys, init, path[..|path| - 1]);
            front.message.None? &&
            match sys.step(front.state, path[|path| - 1])
            case None => ReplayFrom(sys, init, path) == Replay(front.state, Some(RAISED))
            case Some(t) => sys.broken(t).Some? && ReplayFrom(sys, init, path) == Replay(t, sys.broken(t))
  {
    var n := |path| - 1;
    assert path != [];
    assert Without(path, n) == path[..n];
    StopsEarly(sys, init, path);
  }

  // -------------------------------------------- paths from breadth-first search

  /** The actions of the path are enabled in every state, and none of them raises. */
  ghost predicate Free<S(!new), A(!new)>(sys: System<S, A>, path: seq<A>) {
    forall s, a :: a in path ==> a in sys.actions(s) && sys.step(s, a).Some?
  }

  lemma AfterCons<S, A>(sys: System<S, A>, s: S, path: seq<A>)
    requires path != [] && path[0] in sys.actions(s) && sys.step(s, path[0]).Some?
    ensures After(sys, s, path) == After(sys, sys.step(s, path[0]).value, path[1..])
    decreases |path|
  {
    if |path| == 1 {
      assert path[..0] == [] && path[1..] == [];
    } else {
      var front := path[..|path| - 1];
      AfterCons(sys, s, front);
      assert front[1..] == path[1..][..|path[1..]| - 1];
    }
  }

  /** A path of free actions that triggers has a prefix that is a violating run. */
  lemma {:induction false} TriggersIsRun<S(!new), A(!new)>(sys: System<S, A>, s: S, path: seq<A>) returns (k: nat)
    requires Free(sys, path) && Triggers(sys, s, path)
    ensures k <= |path| && EndsBroken(sys, s, path[..k])
    decreases |path|
  {
    assert path[0] in path;
    var t := sys.step(s, path[0]).value;
    if sys.broken(t).Some? {
      k := 1;
      assert path[..1][..0] == [];
    } else {
      k := TriggersIsRun(sys, t, path[1..]);
      k := k + 1;
      assert path[..k][1..] == path[1..][..k - 1];
      AfterCons(sys, s, path[..k]);
    }
  }

  lemma {:induction false} RunTriggers<S, A>(sys: System<S, A>, s: S, path: seq<A>)
    requires path != [] && EndsBroken(sys, s, path)
    ensures Triggers(sys, s, path)
    decreases |path|
  {
    FirstEnabled(sys, s, path);
    AfterCons(sys, s, path);
    if |path| > 1 { RunTriggers(sys, sys.step(s, path[0]).value, path[1..]); }
  }

  lemma {:induction false} FirstEnabled<S, A>(sys: System<S, A>, s: S, path: seq<A>)
    requires path != [] && After(sys, s, path).Some?
    ensures path[0] in sys.actions(s) && sys.step(s, path[0]).Some?
  {
    if |path| > 1 { FirstEnabled(sys, s, path[..|path| - 1]); }
  }

  lemma {:induction false} SubsequenceMember<A>(a: seq<A>, b: seq<A>, x: A)
    requires Subsequence(a, b) && x in a
    ensures x in b
    decreases |b|
  {
    if a[0] != b[0] || !Subsequence(a[1..], b[1..]) {
      SubsequenceMember(a, b[1..], x);
    } else if x != a[0] {
      SubsequenceMember(a[1..], b[1..], x);
    }
  }

  /** A path of free actions no longer than any violating run - which is what
      breadth-first search reports first - is already minimal: whatever the
      minimiser may return for it is the path itself. */
  lemma {:induction false} ShortestIsKept<S(!new), A(!new)>(sys: System<S, A>, init: S, path: seq<A>, p: seq<A>)
    requires Free(sys, path) && EndsBroken(sys, init, path)
    requires forall other :: EndsBroken(sys, init, other) ==> |path| <= |other|
    requires Subsequence(p, path) && (p == path || Triggers(sys, init, p))
    ensures p == path
  {
    SubsequenceLength(p, path);
    if Triggers(sys, init, p) {
      forall a | a in p
        ensures a in path
      {
        SubsequenceMember(p, path, a);
      }
      var k := TriggersIsRun(sys, init, p);
    }
  }

  /** Two steps lead to the broken state 2, but the second action does too if it
      is taken first, where it is not enabled. */
  function Shortcut(): System<int, string> {
    System(s => if s == 0 then ["a"] else ["b"], (s, a) => if a == "b" then Some(2) else Some(1),
           s => if s == 2 then Some("broken") else None)
  }

  /** Replay does not ask whether an action is enabled, so without free actions a
      shortest violating run need not be minimal: here its second action alone
      triggers, though it is no run of the system. */
  lemma ShortestIsNotAlwaysKept()
    ensures EndsBroken(Shortcut(), 0, ["a", "b"])
    ensures forall path :: EndsBroken(Shortcut(), 0, path) ==> |path| >= 2
    ensures Triggers(Shortcut(), 0, ["b"]) && !OneMinimal(Shortcut(), 0, ["a", "b"])
  {
    var sys, path := Shortcut(), ["a", "b"];
    assert path[..1] == ["a"] && path[..1][..0] == [];
    assert After(sys, 0, ["a"]) == Some(1);
    assert Without(path, 0) == ["b"] && ["b"][1..] == [];
    forall other: seq<string> | |other| < 2
      ensures !EndsBroken(sys, 0, other)
    {
      NoShortcut(other);
    }
  }

  lemma NoShortcut(path: seq<string>)
    requires |path| < 2
    ensures !EndsBroken(Shortcut(), 0, path)
  {
    assert "a"[0] == 'a' && "b"[0] == 'b';
    var sys := Shortcut();
    if |path| == 1 {
      assert path[..0] == [] && After(sys, 0, path[..0]) == Some(0) && sys.actions(0) == ["a"];
      assert After(sys, 0, path) == if path[0] == "a" then Some(1) else None;
    }
  }

  /** The minimiser applied to the first violation of a breadth-first search. */
  method MinimizeFirst<S(==, !new), A(!new)>(sys: System<S, A>, init: S, maxStates: int, maxDepth: int)
    returns (r: Report<A>, p: seq<A>)
    ensures r.violations != [] ==> OneMinimal(sys, init, p) && |p| <= r.violations[0].depth
    ensures r.violations != [] ==> (Triggers(sys, init, p) <==> r.violations[0].depth > 0)
    ensures r.violations != [] ==> (p == r.violations[0].path <==> OneMinimal(sys, init, r.violations[0].path))
    ensures r.violations != [] && NeverRaises(sys) && Free(sys, r.violations[0].path) ==> p == r.violations[0].path
  {
    hide Shrunk, FirstSpare;
    ghost var found, dist;
    r, found, dist := ExploreBfs(sys, init, maxStates, maxDepth);
    p := [];
    if r.violations != [] {
      ghost var first := r.violations[0];
      BfsSound(sys, init, maxStates, maxDepth, r, found, dist, first);
      p := MinimizePath(sys, init, r.violations[0].path);
      SubsequenceLength(p, first.path);
      GenuineTriggers(sys, init, first);
      if NeverRaises(sys) && Free(sys, first.path) {
        BfsShortestWhenTotal(sys, init, maxStates, maxDepth, r, found, dist);
        ShortestIsKept(sys, init, first.path, p);
      }
    }
  }

  lemma {:induction false} RaisingTriggers<S, A>(sys: System<S, A>, s: S, path: seq<A>)
    requires EndsRaising(sys, s, path)
    ensures Triggers(sys, s, path)
    decreases |path|
  {
    if |path| > 1 {
      var front := path[..|path| - 1];
      FirstEnabled(sys, s, front);
      AfterCons(sys, s, front);
      var t := sys.step(s, path[0]).value;
      assert front[1..] == path[1..][..|path[1..]| - 1];
      RaisingTriggers(sys, t, path[1..]);
    } else {
      assert path[..0] == [];
    }
  }

  /** A violation found by either search is reproduced by replaying its path,
      unless the initial state itself is the violation: the replay checks only
      the states it enters, so that one is never given a message. */
  lemma GenuineTriggers<S, A>(sys: System<S, A>, init: S, f: Finding<A>)
    requires Genuine(sys, init, f)
    ensures Triggers(sys, init, f.path) <==> f.depth > 0
  {
    if f.depth > 0 {
      match f.cause
      case Broken(_) => RunTriggers(sys, init, f.path);
      case Raised => RaisingTriggers(sys, init, f.path);
    }
  }
}
