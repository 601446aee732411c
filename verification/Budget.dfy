/** The per-iteration budgets of services/tool_gateway/app.py: `charge` keeps a
    usage table, forgets all but the five latest iterations of a scope, and must
    nevertheless decide as if it forgot nothing. */
module Budget {
  import opened Common

  datatype Key = Key(repo: string, scope: string, iter: int)

  datatype Usage = Usage(readSteps: int, searchSteps: int, bytes: int)

  datatype Limits = Limits(readSteps: int, searchSteps: int, bytes: int)

  /** One call of `charge`; an empty `runId` stands for None as well. */
  datatype Request = Request(repo: string, iter: int, kind: string, bytesOut: int, runId: string)

  datatype Verdict = Accepted | OverReads | OverSearches | OverBytes

  type Table = map<Key, Usage>

  function UsageKey(c: Request): Key {
    Key(c.repo, if c.runId != "" then c.runId else "repo:" + c.repo, c.iter)
  }

  const UNUSED := Usage(0, 0, 0)

  function Lookup(t: Table, k: Key): Usage {
    if k in t then t[k] else UNUSED
  }

  /** The counters after a charge. A refusal stops there: what was counted up to
      the refusal stays counted, and what follows is not. */
  function Spend(limits: Limits, u: Usage, c: Request): (Usage, Verdict) {
    var u1 := if c.kind == "read" then u.(readSteps := u.readSteps + 1) else u;
    if c.kind == "read" && u1.readSteps > limits.readSteps then (u1, OverReads)
    else
      var u2 := if c.kind == "search" then u1.(searchSteps := u1.searchSteps + 1) else u1;
      if c.kind == "search" && u2.searchSteps > limits.searchSteps then (u2, OverSearches)
      else
        var u3 := if c.bytesOut != 0 then u2.(bytes := u2.bytes + c.bytesOut) else u2;
        if c.bytesOut != 0 && u3.bytes > limits.bytes then (u3, OverBytes) else (u3, Accepted)
  }

  function Iterations(t: Table, repo: string, scope: string): set<int> {
    set k | k in t && k.repo == repo && k.scope == scope :: k.iter
  }

  function Later(iters: set<int>, i: int): set<int> {
    set j | j in iters && j > i
  }

  const KEPT := 5

  /** `i` is among the five latest of `iters`, or would be if it joined them. */
  predicate Recent(iters: set<int>, i: int) {
    |Later(iters, i)| < KEPT
  }

  /** The table without the iterations of the scope of `k` that are not recent. */
  function Prune(t: Table, k: Key): Table {
    var iters := Iterations(t, k.repo, k.scope);
    map kk | kk in t && !(kk.repo == k.repo && kk.scope == k.scope && !Recent(iters, kk.iter)) :: t[kk]
  }

  /** A charge against a table that never forgets. */
  function ChargeFull(limits: Limits, t: Table, c: Request): (Table, Verdict) {
    var (u, v) := Spend(limits, Lookup(t, UsageKey(c)), c);
    (t[UsageKey(c) := u], v)
  }

  /** A charge as the source does it: an accepted charge prunes its scope. */
  function ChargePruned(limits: Limits, t: Table, c: Request): (Table, Verdict) {
    var (full, v) := ChargeFull(limits, t, c);
    (if v == Accepted then Prune(full, UsageKey(c)) else full, v)
  }

  // ------------------------------------------------------------- the gateway

  predicate Ascending(s: seq<int>) {
    forall i, j :: 0 <= i < j < |s| ==> s[i] < s[j]
  }

  lemma LeastExists(s: set<int>) returns (m: int)
    requires s != {}
    ensures m in s && forall x :: x in s ==> m <= x
  {
    m := Pick(s);
    if s != {m} {
      var rest := s - {m};
      var m' := LeastExists(rest);
      assert s == rest + {m};
      if m' < m { m := m'; }
    }
  }

  function Sorted(s: set<int>): (r: seq<int>)
    ensures Ascending(r) && forall x :: x in r <==> x in s
  {
    if s == {} then []
    else
      LeastWitness(s);
      var m :| m in s && forall x :: x in s ==> m <= x;
      [m] + Sorted(s - {m})
  }

  lemma LeastWitness(s: set<int>)
    requires s != {}
    ensures exists m :: m in s && forall x :: x in s ==> m <= x
  {
    var m := LeastExists(s);
  }

  /** The elements of an ascending list behind position `k`. */
  ghost function Tail(s: seq<int>, k: nat): set<int>
    requires k <= |s|
    decreases |s| - k
  {
    if k == |s| then {} else {s[k]} + Tail(s, k + 1)
  }

  predicate Behind(s: seq<int>, k: nat, x: int) {
    exists i :: k <= i < |s| && s[i] == x
  }

  lemma BehindStep(s: seq<int>, k: nat, x: int)
    requires k < |s|
    ensures Behind(s, k, x) <==> x == s[k] || Behind(s, k + 1, x)
    ensures Ascending(s) ==> !Behind(s, k + 1, s[k])
  {
  }

  lemma {:induction false} AscendingTail(s: seq<int>, k: nat)
    requires Ascending(s) && k <= |s|
    ensures |Tail(s, k)| == |s| - k
    ensures forall x :: x in Tail(s, k) <==> Behind(s, k, x)
    decreases |s| - k
  {
    hide Behind, Ascending;
    if k < |s| {
      AscendingTail(s, k + 1);
      BehindStep(s, k, s[k]);
      forall x
        ensures Behind(s, k, x) <==> x == s[k] || Behind(s, k + 1, x)
      {
        BehindStep(s, k, x);
      }
    } else {
      NoneBehind(s);
    }
  }

  lemma NoneBehind(s: seq<int>)
    ensures forall x :: !Behind(s, |s|, x)
  {
  }

  /** The sorted list without its last five holds exactly those not recent. */
  lemma SliceIsRank(iters: set<int>, s: seq<int>, k: nat)
    requires Ascending(s) && (forall x :: x in s <==> x in iters) && k < |s|
    ensures k < |s| - KEPT <==> !Recent(iters, s[k])
  {
    AscendingTail(s, k + 1);
    forall x
      ensures x in Tail(s, k + 1) <==> x in Later(iters, s[k])
    {
      if x in iters {
        assert x in s;
        var i :| 0 <= i < |s| && s[i] == x;
      }
    }
    assert Tail(s, k + 1) == Later(iters, s[k]);
  }

  lemma DroppedIsUnrecent(iters: set<int>, s: seq<int>, x: int)
    requires Ascending(s) && (forall y :: y in s <==> y in iters) && x in iters
    ensures |s| > KEPT ==> (x in s[..|s| - KEPT] <==> !Recent(iters, x))
    ensures |s| <= KEPT ==> Recent(iters, x)
  {
    assert x in s;
    var i :| 0 <= i < |s| && s[i] == x;
    SliceIsRank(iters, s, i);
    if |s| > KEPT && x in s[..|s| - KEPT] {
      var j :| 0 <= j < |s| - KEPT && s[..|s| - KEPT][j] == x;
      assert s[j] == x && i == j;
    }
  }

  class Gateway {
    const limits: Limits
    var usage: Table

    constructor (limits: Limits)
      ensures this.limits == limits && usage == map[]
    {
      this.limits := limits;
      usage := map[];
    }

    method Charge(c: Request) returns (v: Verdict)
      modifies this
      ensures (usage, v) == ChargePruned(limits, old(usage), c)
    {
      var k := UsageKey(c);
      var u := Lookup(usage, k);
      if c.kind == "read" {
        u := u.(readSteps := u.readSteps + 1);
        if u.readSteps > limits.readSteps {
          usage := usage[k := u];
          return OverReads;
        }
      }
      if c.kind == "search" {
        u := u.(searchSteps := u.searchSteps + 1);
        if u.searchSteps > limits.searchSteps {
          usage := usage[k := u];
          return OverSearches;
        }
      }
      if c.bytesOut != 0 {
        u := u.(bytes := u.bytes + c.bytesOut);
        if u.bytes > limits.bytes {
          usage := usage[k := u];
          return OverBytes;
        }
      }
      usage := usage[k := u];
      v := Accepted;
      PruneUsage(k);
    }

    /** The tail of `charge`: sort the scope's iterations, drop all but five. */
    method PruneUsage(k: Key)
      modifies this
      ensures usage == Prune(old(usage), k)
    {
      ghost var full := usage;
      var iters := Iterations(usage, k.repo, k.scope);
      var sorted := Sorted(iters);
      forall kk | kk in full && kk.repo == k.repo && kk.scope == k.scope
        ensures |sorted| > KEPT ==> (kk.iter in sorted[..|sorted| - KEPT] <==> !Recent(iters, kk.iter))
        ensures |sorted| <= KEPT ==> Recent(iters, kk.iter)
      {
        assert kk.iter in iters;
        DroppedIsUnrecent(iters, sorted, kk.iter);
      }
      hide Recent, Sorted, Ascending;
      if |sorted| > KEPT {
        var drop := sorted[..|sorted| - KEPT];
        usage := map kk | kk in usage && !(kk.repo == k.repo && kk.scope == k.scope && kk.iter in drop) :: usage[kk];
      }
      assert usage.Keys == Prune(full, k).Keys;
      assert usage == Prune(full, k);
    }
  }

  lemma SpendIs(limits: Limits, u: Usage, c: Request)
    ensures var noRead, noSearch := c.kind == "read" && u.readSteps + 1 > limits.readSteps, c.kind == "search" && u.searchSteps + 1 > limits.searchSteps;
            var (u', v) := Spend(limits, u, c);
            && v == (if noRead then OverReads else if noSearch then OverSearches
                     else if c.bytesOut != 0 && u.bytes + c.bytesOut > limits.bytes then OverBytes else Accepted)
            && u' == Usage(u.readSteps + (if c.kind == "read" then 1 else 0), u.searchSteps + (if c.kind == "search" then 1 else 0),
                           u.bytes + (if noRead || noSearch then 0 else c.bytesOut))
  {
    assert "read"[0] == 'r' && "search"[0] == 's';
  }

  /** A charge, on the table's fields: it is refused for the first limit that one
      more step of its kind, or else its bytes, would pass, and counts nothing
      behind that limit. */
  lemma {:induction false} ChargeMeans(limits: Limits, t: Table, c: Request)
    ensures var k := Key(c.repo, if c.runId == "" then "repo:" + c.repo else c.runId, c.iter);
            var u := if k in t then t[k] else Usage(0, 0, 0);
            var noRead, noSearch := c.kind == "read" && u.readSteps + 1 > limits.readSteps, c.kind == "search" && u.searchSteps + 1 > limits.searchSteps;
            var (full, v) := ChargeFull(limits, t, c);
            && k == UsageKey(c)
            && v == (if noRead then OverReads else if noSearch then OverSearches
                     else if c.bytesOut != 0 && u.bytes + c.bytesOut > limits.bytes then OverBytes else Accepted)
            && full == t[k := Usage(u.readSteps + (if c.kind == "read" then 1 else 0), u.searchSteps + (if c.kind == "search" then 1 else 0),
                                    u.bytes + (if noRead || noSearch then 0 else c.bytesOut))]
  {
    SpendIs(limits, Lookup(t, UsageKey(c)), c);
    hide Spend;
  }

  /** An accepted charge drops from its scope the iterations with five or more later
      ones, and leaves every other entry as it was; a refused one drops none. */
  lemma {:induction false} ChargeDrops(limits: Limits, t: Table, c: Request, x: Key)
    ensures var (full, v) := ChargeFull(limits, t, c);
            var (t', v') := ChargePruned(limits, t, c);
            var later := set y | y in full && y.repo == x.repo && y.scope == x.scope && y.iter > x.iter :: y.iter;
            && v' == v
            && (x in t' <==> x in full && (v == Accepted && x.repo == UsageKey(c).repo && x.scope == UsageKey(c).scope ==> |later| < 5))
            && (x in t' ==> t'[x] == full[x])
  {
    hide Spend, Iterations, Later;
    LaterIs(ChargeFull(limits, t, c).0, UsageKey(c), x.iter);
  }

  lemma LaterIs(t: Table, k: Key, i: int)
    ensures Later(Iterations(t, k.repo, k.scope), i) == set y | y in t && y.repo == k.repo && y.scope == k.scope && y.iter > i :: y.iter
  {
  }

  // -------------------------------------------------------------- refinement

  /** The verdicts of a run of charges against one table or the other. */
  function Verdicts(limits: Limits, pruned: bool, t: Table, cs: seq<Request>): (vs: seq<Verdict>)
    ensures |vs| == |cs|
    decreases |cs|
  {
    if cs == [] then []
    else
      var (t', v) := if pruned then ChargePruned(limits, t, cs[0]) else ChargeFull(limits, t, cs[0]);
      [v] + Verdicts(limits, pruned, t', cs[1..])
  }

  /** Every charge names one of the five latest iterations ever charged in its
      scope; the keys of a table that never forgets are those charged so far. */
  ghost predicate AllRecent(limits: Limits, full: Table, cs: seq<Request>)
    decreases |cs|
  {
    cs == [] ||
    var k := UsageKey(cs[0]);
    Recent(Iterations(full, k.repo, k.scope), k.iter) && AllRecent(limits, ChargeFull(limits, full, cs[0]).0, cs[1..])
  }

  /** The pruned table holds nothing of its own, and agrees on what is recent. */
  ghost predicate Refines(pruned: Table, full: Table) {
    && pruned.Keys <= full.Keys
    && forall k :: k in full && Recent(Iterations(full, k.repo, k.scope), k.iter) ==> k in pruned && pruned[k] == full[k]
  }

  lemma RecentInSubset(a: set<int>, b: set<int>, i: int)
    requires a <= b && Recent(b, i)
    ensures Recent(a, i)
  {
    SmallerSet(Later(a, i), Later(b, i));
  }

  /** Every charge keeps the refinement, and one on a recent iteration gets the
      same verdict from both tables. */
  lemma {:induction false} ChargeRefines(limits: Limits, pruned: Table, full: Table, c: Request)
    requires Refines(pruned, full)
    ensures Refines(ChargePruned(limits, pruned, c).0, ChargeFull(limits, full, c).0)
    ensures Recent(Iterations(full, UsageKey(c).repo, UsageKey(c).scope), c.iter) ==>
              ChargePruned(limits, pruned, c).1 == ChargeFull(limits, full, c).1
  {
    hide Spend, Recent;
    var k := UsageKey(c);
    var (full', v) := ChargeFull(limits, full, c);
    var (pruned0, v0) := ChargeFull(limits, pruned, c);
    var pruned' := ChargePruned(limits, pruned, c).0;
    if Recent(Iterations(full, k.repo, k.scope), k.iter) { KnownWhenRecent(pruned, full, k); }
    forall kk | kk in full' && Recent(Iterations(full', kk.repo, kk.scope), kk.iter)
      ensures kk in pruned' && pruned'[kk] == full'[kk]
    {
      assert Iterations(full, kk.repo, kk.scope) <= Iterations(full', kk.repo, kk.scope);
      assert Iterations(pruned0, kk.repo, kk.scope) <= Iterations(full', kk.repo, kk.scope);
      RecentInSubset(Iterations(full, kk.repo, kk.scope), Iterations(full', kk.repo, kk.scope), kk.iter);
      RecentInSubset(Iterations(pruned0, kk.repo, kk.scope), Iterations(full', kk.repo, kk.scope), kk.iter);
    }
  }

  lemma KnownWhenRecent(pruned: Table, full: Table, k: Key)
    requires Refines(pruned, full) && Recent(Iterations(full, k.repo, k.scope), k.iter)
    ensures Lookup(pruned, k) == Lookup(full, k)
  {
  }

  /** The table that never forgets, after the first `j` charges. */
  function FullAfter(limits: Limits, full: Table, cs: seq<Request>, j: nat): Table
    requires j <= |cs|
    decreases j
  {
    if j == 0 then full else FullAfter(limits, ChargeFull(limits, full, cs[0]).0, cs[1..], j - 1)
  }

  /** The j-th charge names one of the five latest iterations charged by then. */
  ghost predicate RecentAt(limits: Limits, full: Table, cs: seq<Request>, j: nat)
    requires j < |cs|
  {
    var k := UsageKey(cs[j]);
    Recent(Iterations(FullAfter(limits, full, cs, j), k.repo, k.scope), k.iter)
  }

  lemma {:induction false} RecentAgrees(limits: Limits, pruned: Table, full: Table, cs: seq<Request>, j: nat)
    requires Refines(pruned, full) && j < |cs| && RecentAt(limits, full, cs, j)
    ensures Verdicts(limits, true, pruned, cs)[j] == Verdicts(limits, false, full, cs)[j]
    decreases j
  {
    hide Recent, Iterations, Refines;
    ChargeRefines(limits, pruned, full, cs[0]);
    if j > 0 { RecentAgrees(limits, ChargePruned(limits, pruned, cs[0]).0, ChargeFull(limits, full, cs[0]).0, cs[1..], j - 1); }
    hide ChargePruned, ChargeFull;
  }

  /** In any run from an empty table, a charge on one of the five latest iterations
      of its scope is accepted or refused as if nothing were ever pruned, whatever
      else is charged. */
  lemma {:induction false} PruningIsInvisible(limits: Limits, cs: seq<Request>, j: nat)
    requires j < |cs| && RecentAt(limits, map[], cs, j)
    ensures Verdicts(limits, true, map[], cs)[j] == Verdicts(limits, false, map[], cs)[j]
  {
    RecentAgrees(limits, map[], map[], cs, j);
  }

  lemma {:induction false} AllRecentAt(limits: Limits, full: Table, cs: seq<Request>, j: nat)
    requires AllRecent(limits, full, cs) && j < |cs|
    ensures RecentAt(limits, full, cs, j)
    decreases j
  {
    hide Recent, Iterations, ChargeFull;
    if j > 0 { AllRecentAt(limits, ChargeFull(limits, full, cs[0]).0, cs[1..], j - 1); }
  }

  /** So if every charge does, all verdicts are those of a table that never forgets. */
  lemma {:induction false} RecentRunsAgree(limits: Limits, cs: seq<Request>)
    requires AllRecent(limits, map[], cs)
    ensures Verdicts(limits, true, map[], cs) == Verdicts(limits, false, map[], cs)
  {
    forall j | 0 <= j < |cs|
      ensures Verdicts(limits, true, map[], cs)[j] == Verdicts(limits, false, map[], cs)[j]
    {
      AllRecentAt(limits, map[], cs, j);
      PruningIsInvisible(limits, cs, j);
    }
  }

  // --------------------------------------------------------- when it does show

  /** Usage `u` is at most `w`, counter by counter, and neither is negative. */
  predicate AtMost(u: Usage, w: Usage) {
    0 <= u.readSteps <= w.readSteps && 0 <= u.searchSteps <= w.searchSteps && 0 <= u.bytes <= w.bytes
  }

  /** The charge is refused at usage `w` and would not be at `u`: for its step, or
      if that passes at both for its bytes. */
  predicate Shows(limits: Limits, u: Usage, w: Usage, c: Request) {
    if c.kind == "read" && w.readSteps + 1 > limits.readSteps then u.readSteps + 1 <= limits.readSteps
    else if c.kind == "search" && w.searchSteps + 1 > limits.searchSteps then u.searchSteps + 1 <= limits.searchSteps
    else c.bytesOut > 0 && u.bytes + c.bytesOut <= limits.bytes < w.bytes + c.bytesOut
  }

  lemma {:induction false} SpendShows(limits: Limits, u: Usage, w: Usage, c: Request)
    requires AtMost(u, w) && c.bytesOut >= 0
    ensures Spend(limits, u, c).1 != Spend(limits, w, c).1 <==> Shows(limits, u, w, c)
    ensures !Shows(limits, u, w, c) ==> AtMost(Spend(limits, u, c).0, Spend(limits, w, c).0)
    ensures AtMost(Spend(limits, w, c).0, Spend(limits, w, c).0)
  {
  }

  /** Forgetting shows at once exactly when the charge names an iteration that is
      no longer recent and whose forgotten usage would have had it refused. */
  lemma {:induction false} ForgettingShows(limits: Limits, t: Table, c: Request, d: Request)
    requires ChargeFull(limits, t, c).1 == Accepted && d.bytesOut >= 0
    requires UsageKey(d).repo == UsageKey(c).repo && UsageKey(d).scope == UsageKey(c).scope
    requires var used := Lookup(ChargeFull(limits, t, c).0, UsageKey(d)); AtMost(used, used)
    ensures var full, k := ChargeFull(limits, t, c).0, UsageKey(d);
            ChargePruned(limits, ChargePruned(limits, t, c).0, d).1 != ChargeFull(limits, full, d).1 <==>
            !Recent(Iterations(full, k.repo, k.scope), k.iter) && Shows(limits, UNUSED, Lookup(full, k), d)
  {
    hide Spend, Prune, Recent, Iterations;
    var full, k := ChargeFull(limits, t, c).0, UsageKey(d);
    ForgottenIsFresh(limits, t, c, k);
    SpendShows(limits, UNUSED, Lookup(full, k), d);
  }

  ghost predicate Below(pruned: Table, full: Table) {
    forall k :: AtMost(Lookup(pruned, k), Lookup(full, k))
  }

  lemma ChargeBelow(limits: Limits, pruned: Table, full: Table, c: Request)
    requires Below(pruned, full) && c.bytesOut >= 0
    ensures var k := UsageKey(c);
            && (ChargePruned(limits, pruned, c).1 != ChargeFull(limits, full, c).1 <==>
                  Shows(limits, Lookup(pruned, k), Lookup(full, k), c))
            && (!Shows(limits, Lookup(pruned, k), Lookup(full, k), c) ==>
                  Below(ChargePruned(limits, pruned, c).0, ChargeFull(limits, full, c).0))
  {
    hide Spend, Shows, Recent, Iterations;
    var k := UsageKey(c);
    SpendShows(limits, Lookup(pruned, k), Lookup(full, k), c);
    if !Shows(limits, Lookup(pruned, k), Lookup(full, k), c) {
      forall kk
        ensures AtMost(Lookup(ChargePruned(limits, pruned, c).0, kk), Lookup(ChargeFull(limits, full, c).0, kk))
      {
        assert AtMost(Lookup(pruned, kk), Lookup(full, kk));
      }
    }
  }

  /** An iteration that is not recent has five recent ones behind it. */
  lemma {:induction false} RecentBehind(iters: set<int>, i: int) returns (five: set<int>)
    requires !Recent(iters, i)
    ensures five <= Later(iters, i) && |five| == KEPT && forall x :: x in five ==> Recent(iters, x)
    decreases |Later(iters, i)|
  {
    var later := Later(iters, i);
    var m := LeastExists(later);
    assert Later(iters, m) == later - {m};
    if |later| > KEPT {
      five := RecentBehind(iters, m);
    } else {
      five := later;
      forall x | x in five
        ensures Recent(iters, x)
      {
        assert Later(iters, x) <= later - {x};
        SmallerSet(Later(iters, x), later - {x});
      }
    }
  }

  /** What is not recent in the table that never forgets is not recent in the pruned
      one either: the five iterations behind it are still there. */
  lemma UnrecentInBoth(limits: Limits, pruned: Table, full: Table, c: Request, iter: int)
    requires Refines(pruned, full)
    requires var full' := ChargeFull(limits, full, c).0;
             !Recent(Iterations(full', UsageKey(c).repo, UsageKey(c).scope), iter)
    ensures var pruned' := ChargeFull(limits, pruned, c).0;
            !Recent(Iterations(pruned', UsageKey(c).repo, UsageKey(c).scope), iter)
  {
    hide Spend;
    var k := UsageKey(c);
    var all := Iterations(ChargeFull(limits, full, c).0, k.repo, k.scope);
    var left := Iterations(ChargeFull(limits, pruned, c).0, k.repo, k.scope);
    var five := RecentBehind(all, iter);
    forall x | x in five
      ensures x in Later(left, iter)
    {
      var kk := Key(k.repo, k.scope, x);
      assert kk in ChargeFull(limits, full, c).0;
      if kk != k {
        assert Iterations(full, k.repo, k.scope) <= all;
        RecentInSubset(Iterations(full, k.repo, k.scope), all, x);
        assert kk in pruned;
      }
      assert kk in ChargeFull(limits, pruned, c).0;
    }
    SmallerSet(five, Later(left, iter));
  }

  predicate SameScope(k: Key, c: Request) {
    k.repo == UsageKey(c).repo && k.scope == UsageKey(c).scope
  }

  /** What pruning remembers of the usage `u` of a key after the first `j` charges,
      told from the table that never forgets: nothing from before the last charge
      accepted in its scope while its iteration was not recent. */
  ghost function Remembered(limits: Limits, full: Table, k: Key, u: Usage, cs: seq<Request>, j: nat): Usage
    requires j <= |cs|
    decreases j
  {
    if j == 0 then u
    else
      var (full', v) := ChargeFull(limits, full, cs[0]);
      var spent := if UsageKey(cs[0]) == k then Spend(limits, u, cs[0]).0 else u;
      var forgotten := v == Accepted && SameScope(k, cs[0]) && !Recent(Iterations(full', k.repo, k.scope), k.iter);
      Remembered(limits, full', k, if forgotten then UNUSED else spent, cs[1..], j - 1)
  }

  /** As long as verdicts agree, that is what the pruned table holds. */
  lemma {:induction false} PrunedRemembers(limits: Limits, pruned: Table, full: Table, c: Request, k: Key)
    requires Refines(pruned, full) && ChargePruned(limits, pruned, c).1 == ChargeFull(limits, full, c).1
    ensures var (full', v) := ChargeFull(limits, full, c);
            Lookup(ChargePruned(limits, pruned, c).0, k) ==
            if v == Accepted && SameScope(k, c) && !Recent(Iterations(full', k.repo, k.scope), k.iter) then UNUSED
            else if UsageKey(c) == k then Spend(limits, Lookup(pruned, k), c).0 else Lookup(pruned, k)
  {
    hide Spend, Recent;
    var (full', v) := ChargeFull(limits, full, c);
    var pruned0 := ChargeFull(limits, pruned, c).0;
    if SameScope(k, c) {
      if Recent(Iterations(full', k.repo, k.scope), k.iter) {
        assert Iterations(pruned0, k.repo, k.scope) <= Iterations(full', k.repo, k.scope);
        RecentInSubset(Iterations(pruned0, k.repo, k.scope), Iterations(full', k.repo, k.scope), k.iter);
      } else {
        UnrecentInBoth(limits, pruned, full, c, k.iter);
      }
    }
  }

  /** The j-th charge is refused at its key's whole usage and would not be at what
      pruning remembers of it. */
  ghost predicate ShowsAt(limits: Limits, full: Table, u: Usage, cs: seq<Request>, j: nat)
    requires j < |cs|
  {
    var k := UsageKey(cs[j]);
    Shows(limits, Remembered(limits, full, k, u, cs, j), Lookup(FullAfter(limits, full, cs, j), k), cs[j])
  }

  lemma ShowsLater(limits: Limits, full: Table, pruned: Table, cs: seq<Request>, j: nat)
    requires Refines(pruned, full) && 0 < j < |cs| && ChargePruned(limits, pruned, cs[0]).1 == ChargeFull(limits, full, cs[0]).1
    ensures var k := UsageKey(cs[j]);
            ShowsAt(limits, full, Lookup(pruned, k), cs, j) <==>
            ShowsAt(limits, ChargeFull(limits, full, cs[0]).0, Lookup(ChargePruned(limits, pruned, cs[0]).0, k), cs[1..], j - 1)
  {
    hide Shows, Spend, Recent, Iterations, Refines, ChargePruned;
    PrunedRemembers(limits, pruned, full, cs[0], UsageKey(cs[j]));
  }

  lemma {:induction false} RunsShow(limits: Limits, pruned: Table, full: Table, cs: seq<Request>)
    requires Refines(pruned, full) && Below(pruned, full) && NoNegativeBytes(cs)
    ensures Verdicts(limits, true, pruned, cs) == Verdicts(limits, false, full, cs) <==>
            forall j :: 0 <= j < |cs| ==> !ShowsAt(limits, full, Lookup(pruned, UsageKey(cs[j])), cs, j)
    decreases |cs|
  {
    if cs != [] {
      ChargeBelow(limits, pruned, full, cs[0]);
      ChargeRefines(limits, pruned, full, cs[0]);
      var (p, v) := ChargePruned(limits, pruned, cs[0]);
      var (f, w) := ChargeFull(limits, full, cs[0]);
      var vs, ws := Verdicts(limits, true, p, cs[1..]), Verdicts(limits, false, f, cs[1..]);
      ShowsFirst(limits, full, Lookup(pruned, UsageKey(cs[0])), cs);
      if v == w {
        RunsShow(limits, p, f, cs[1..]);
        forall j | 1 <= j < |cs|
          ensures ShowsAt(limits, full, Lookup(pruned, UsageKey(cs[j])), cs, j) <==>
                  ShowsAt(limits, f, Lookup(p, UsageKey(cs[1..][j - 1])), cs[1..], j - 1)
        {
          ShowsLater(limits, full, pruned, cs, j);
        }
      }
      hide ChargePruned, ChargeFull, Shows, ShowsAt, Below, Refines;
      assert ([v] + vs)[0] == v && ([w] + ws)[0] == w && ([v] + vs)[1..] == vs && ([w] + ws)[1..] == ws;
    }
  }

  lemma ShowsFirst(limits: Limits, full: Table, u: Usage, cs: seq<Request>)
    requires cs != []
    ensures ShowsAt(limits, full, u, cs, 0) <==> Shows(limits, u, Lookup(full, UsageKey(cs[0])), cs[0])
  {
  }

  /** Over any run all verdicts are those of a table that never forgets exactly when
      no charge is refused by usage that pruning has forgotten. */
  lemma {:induction false} PruningShows(limits: Limits, cs: seq<Request>)
    requires NoNegativeBytes(cs)
    ensures Verdicts(limits, true, map[], cs) == Verdicts(limits, false, map[], cs) <==>
            forall j :: 0 <= j < |cs| ==> !ShowsAt(limits, map[], UNUSED, cs, j)
  {
    hide ShowsAt;
    RunsShow(limits, map[], map[], cs);
    forall j | 0 <= j < |cs|
      ensures ShowsAt(limits, map[], Lookup(map[], UsageKey(cs[j])), cs, j) == ShowsAt(limits, map[], UNUSED, cs, j)
    {
      assert Lookup(map[], UsageKey(cs[j])) == UNUSED;
    }
  }

  // ------------------------------------------------------- budgets are kept

  /** What a run has been granted on one key: charges accepted, by kind. */
  function Granted(cs: seq<Request>, vs: seq<Verdict>, k: Key): Usage
    requires |cs| == |vs|
    decreases |cs|
  {
    if cs == [] then UNUSED
    else
      var g := Granted(cs[1..], vs[1..], k);
      if UsageKey(cs[0]) != k || vs[0] != Accepted then g
      else Usage(g.readSteps + (if cs[0].kind == "read" then 1 else 0),
                 g.searchSteps + (if cs[0].kind == "search" then 1 else 0),
                 g.bytes + cs[0].bytesOut)
  }

  ghost predicate NoNegativeBytes(cs: seq<Request>) {
    forall i :: 0 <= i < |cs| ==> cs[i].bytesOut >= 0
  }

  /** From usage `u`, a run grants only what the limit still leaves; it may grant a
      negative number of bytes, if charges do. */
  predicate LeftOver(limits: Limits, u: Usage, g: Usage) {
    && 0 <= g.readSteps && (g.readSteps == 0 || u.readSteps + g.readSteps <= limits.readSteps)
    && 0 <= g.searchSteps && (g.searchSteps == 0 || u.searchSteps + g.searchSteps <= limits.searchSteps)
    && (g.bytes <= 0 || u.bytes + g.bytes <= limits.bytes)
  }

  lemma SpendLeaves(limits: Limits, u: Usage, c: Request, g: Usage)
    requires LeftOver(limits, Spend(limits, u, c).0, g)
    ensures LeftOver(limits, u,
              if Spend(limits, u, c).1 != Accepted then g
              else Usage(g.readSteps + (if c.kind == "read" then 1 else 0),
                         g.searchSteps + (if c.kind == "search" then 1 else 0),
                         g.bytes + c.bytesOut))
  {
  }

  lemma {:induction false} GrantsLeftOver(limits: Limits, t: Table, cs: seq<Request>, k: Key)
    ensures LeftOver(limits, Lookup(t, k), Granted(cs, Verdicts(limits, false, t, cs), k))
    decreases |cs|
  {
    if cs != [] {
      var t' := ChargeFull(limits, t, cs[0]).0;
      var g := Granted(cs[1..], Verdicts(limits, false, t', cs[1..]), k);
      GrantsLeftOver(limits, t', cs[1..], k);
      hide LeftOver, Spend;
      if UsageKey(cs[0]) == k { SpendLeaves(limits, Lookup(t, k), cs[0], g); }
    }
  }

  /** Over any run the accepted reads, searches and bytes of one iteration stay
      within their limits (a negative limit grants nothing). With pruning this
      holds of runs that stay within the five latest iterations. */
  lemma {:induction false} WithinLimits(limits: Limits, pruned: bool, cs: seq<Request>, k: Key)
    requires pruned ==> AllRecent(limits, map[], cs)
    ensures var g := Granted(cs, Verdicts(limits, pruned, map[], cs), k);
            && g.readSteps <= (if limits.readSteps > 0 then limits.readSteps else 0)
            && g.searchSteps <= (if limits.searchSteps > 0 then limits.searchSteps else 0)
            && g.bytes <= (if limits.bytes > 0 then limits.bytes else 0)
  {
    if pruned { RecentRunsAgree(limits, cs); }
    GrantsLeftOver(limits, map[], cs, k);
  }

  /** The charge is of the kind that was refused. */
  predicate SameKind(v: Verdict, c: Request) {
    match v
    case Accepted => false
    case OverReads => c.kind == "read"
    case OverSearches => c.kind == "search"
    case OverBytes => c.bytesOut > 0
  }

  predicate Exhausted(limits: Limits, u: Usage, v: Verdict) {
    match v
    case Accepted => false
    case OverReads => u.readSteps > limits.readSteps
    case OverSearches => u.searchSteps > limits.searchSteps
    case OverBytes => u.bytes > limits.bytes
  }

  lemma SpendExhausts(limits: Limits, u: Usage, c: Request, v: Verdict)
    requires v == OverBytes ==> c.bytesOut >= 0
    ensures var (u', v') := Spend(limits, u, c);
            && Exhausted(limits, u', v') == (v' != Accepted)
            && (Exhausted(limits, u, v) ==> Exhausted(limits, u', v) && (SameKind(v, c) ==> v' != Accepted))
  {
  }

  lemma {:induction false} StaysExhausted(limits: Limits, t: Table, cs: seq<Request>, k: Key, v: Verdict, j: nat)
    requires Exhausted(limits, Lookup(t, k), v) && (v == OverBytes ==> NoNegativeBytes(cs)) && j < |cs|
    requires UsageKey(cs[j]) == k && SameKind(v, cs[j])
    ensures Verdicts(limits, false, t, cs)[j] != Accepted
    decreases |cs|
  {
    SpendExhausts(limits, Lookup(t, k), cs[0], v);
    hide Spend, Exhausted;
    if j > 0 {
      StaysExhausted(limits, ChargeFull(limits, t, cs[0]).0, cs[1..], k, v, j - 1);
    }
  }

  lemma {:induction false} RefusalStands(limits: Limits, t: Table, cs: seq<Request>, i: nat, j: nat)
    requires i < j < |cs|
    requires var v := Verdicts(limits, false, t, cs)[i];
             v != Accepted && UsageKey(cs[i]) == UsageKey(cs[j]) && SameKind(v, cs[j]) && (v == OverBytes ==> NoNegativeBytes(cs))
    ensures Verdicts(limits, false, t, cs)[j] != Accepted
    decreases |cs|
  {
    hide ChargePruned, Spend, Exhausted, SameKind;
    var (t', v) := ChargeFull(limits, t, cs[0]);
    if i > 0 {
      RefusalStands(limits, t', cs[1..], i - 1, j - 1);
    } else {
      SpendExhausts(limits, Lookup(t, UsageKey(cs[0])), cs[0], v);
      StaysExhausted(limits, t', cs[1..], UsageKey(cs[0]), v, j - 1);
    }
  }

  /** The first refusal of a kind is final: once a charge on an iteration has
      been refused, no later charge of that kind on it is accepted. (A refusal for
      bytes would not stand if a charge could take bytes back.) */
  lemma {:induction false} RefusalIsFinal(limits: Limits, pruned: bool, cs: seq<Request>, i: nat, j: nat)
    requires (pruned ==> AllRecent(limits, map[], cs)) && i < j < |cs|
    requires var v := Verdicts(limits, pruned, map[], cs)[i];
             v != Accepted && UsageKey(cs[i]) == UsageKey(cs[j]) && SameKind(v, cs[j]) && (v == OverBytes ==> NoNegativeBytes(cs))
    ensures Verdicts(limits, pruned, map[], cs)[j] != Accepted
  {
    if pruned { RecentRunsAgree(limits, cs); }
    RefusalStands(limits, map[], cs, i, j);
  }

  /** An accepted charge leaves the recent iterations of its scope as a table that
      never forgets has them; every other one reads as never used again. */
  lemma {:induction false} ForgottenIsFresh(limits: Limits, t: Table, c: Request, k: Key)
    requires ChargeFull(limits, t, c).1 == Accepted && k.repo == UsageKey(c).repo && k.scope == UsageKey(c).scope
    ensures var full := ChargeFull(limits, t, c).0;
            Lookup(ChargePruned(limits, t, c).0, k) ==
            if Recent(Iterations(full, k.repo, k.scope), k.iter) then Lookup(full, k) else UNUSED
  {
  }

  function ExampleKey(iter: int): Key { Key("r", "run", iter) }

  function ExampleRead(iter: int): Request { Request("r", iter, "read", 0, "run") }

  /** One read of each of the iterations 0 to 4. */
  function ExampleTable(): Table { map i: int | 0 <= i < 5 :: ExampleKey(i) := Usage(1, 0, 0) }

  lemma ExampleIterations(t: Table)
    requires t == ExampleTable()[ExampleKey(5) := Usage(1, 0, 0)]
    ensures !Recent(Iterations(t, "r", "run"), 0)
  {
    var iters := Iterations(t, "r", "run");
    forall i
      ensures i in iters <==> 0 <= i <= 5
    {
      assert i in iters <==> ExampleKey(i) in t;
    }
    assert Later(iters, 0) == {1, 2, 3, 4, 5};
  }

  /** So pruning does show once an iteration behind the five latest is charged
      again: after a read of iteration 5, iteration 0 may be read a second time
      against a limit of one. */
  lemma {:induction false} ForgottenExample()
    ensures var limits := Limits(1, 1, 0);
            && ChargePruned(limits, ChargePruned(limits, ExampleTable(), ExampleRead(5)).0, ExampleRead(0)).1 == Accepted
            && ChargeFull(limits, ChargeFull(limits, ExampleTable(), ExampleRead(5)).0, ExampleRead(0)).1 == OverReads
  {
    hide ExampleTable, Recent, Iterations, Prune;
    var limits := Limits(1, 1, 0);
    ExampleUsage();
    assert ChargeFull(limits, ExampleTable(), ExampleRead(5)).0 == ExampleTable()[ExampleKey(5) := Usage(1, 0, 0)];
    ExampleIterations(ChargeFull(limits, ExampleTable(), ExampleRead(5)).0);
    ForgottenIsFresh(limits, ExampleTable(), ExampleRead(5), ExampleKey(0));
  }

  lemma ExampleUsage()
    ensures Lookup(ExampleTable(), ExampleKey(5)) == UNUSED && Lookup(ExampleTable(), ExampleKey(0)) == Usage(1, 0, 0)
  {
    assert ExampleKey(5) !in ExampleTable();
    assert ExampleKey(0) in ExampleTable();
  }
}
