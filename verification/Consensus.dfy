/** The replicated log of services/consensus/deterministic_consensus.py.

    `ConsensusLog` is the class of the source. Its `append` is proved against
    `Accept`, and `Accept` is then used as the delivery step of a protocol of
    many nodes whose messages may be reordered, duplicated or lost.

    The source neither elects leaders nor changes `current_term`; both are
    steps of the environment here, under the two assumptions the log needs:
    a term is claimed by at most one node, and a node that is proposing
    accepts no entries. */
module Consensus {
  import opened Common

  datatype LogEntry = LogEntry(term: int, index: int, content: string, leaderId: string)

  type Log = seq<LogEntry>

  datatype Message = Message(prevIndex: int, prevTerm: int, entries: Log)

  // ---------------------------------------------------------------- one log

  /** The consistency check: the log reaches `prevIndex` and agrees on its term. */
  predicate Consistent(log: Log, prevIndex: int, prevTerm: int)
    requires prevIndex >= -1
  {
    prevIndex >= 0 ==> prevIndex < |log| && log[prevIndex].term == prevTerm
  }

  /** How many entries the log already holds from `start` on, by term. */
  function Matched(log: Log, start: nat, entries: Log): (k: nat)
    ensures k <= |entries| && (start <= |log| ==> start + k <= |log|)
    decreases |entries|
  {
    if entries == [] || start >= |log| || log[start].term != entries[0].term then 0
    else 1 + Matched(log, start + 1, entries[1..])
  }

  /** `Matched` is the index of the first entry the log does not hold. */
  lemma {:induction false} MatchedIsFirst(log: Log, start: nat, entries: Log, i: nat)
    requires i < |entries|
    ensures i < Matched(log, start, entries) ==> start + i < |log| && log[start + i].term == entries[i].term
    ensures i == Matched(log, start, entries) && start + i < |log| ==> log[start + i].term != entries[i].term
    decreases i
  {
    if i > 0 { MatchedIsFirst(log, start + 1, entries[1..], i - 1); }
  }

  lemma {:induction false} MatchedAll(log: Log, start: nat, entries: Log)
    requires start + |entries| <= |log|
    requires forall i :: 0 <= i < |entries| ==> log[start + i].term == entries[i].term
    ensures Matched(log, start, entries) == |entries|
    decreases |entries|
  {
    if entries != [] {
      forall i | 0 <= i < |entries[1..]|
        ensures log[start + 1 + i].term == entries[1..][i].term
      {
        assert entries[1..][i] == entries[i + 1];
      }
      MatchedAll(log, start + 1, entries[1..]);
    }
  }

  /** The log after accepting `m`: untouched when it already holds every entry,
      and otherwise cut at the first entry it does not hold and continued by
      the message. */
  function Accept(log: Log, m: Message): Log
    requires m.prevIndex >= -1
  {
    if !Consistent(log, m.prevIndex, m.prevTerm) then log
    else
      var start := m.prevIndex + 1;
      var k := Matched(log, start, m.entries);
      if k == |m.entries| then log else log[..start + k] + m.entries[k..]
  }

  /** The log after the first `i` entries have been handled. */
  ghost function Progress(log: Log, start: nat, entries: Log, i: nat): Log
    requires start <= |log| && i <= |entries|
  {
    var k := Matched(log, start, entries);
    if i <= k then log else log[..start + k] + entries[k..i]
  }

  lemma ProgressStep(log: Log, start: nat, entries: Log, i: nat)
    requires start <= |log| && i < |entries|
    ensures var now := Progress(log, start, entries, i);
            var e := entries[i];
            Progress(log, start, entries, i + 1) ==
            if start + i >= |now| then now + [e]
            else if now[start + i].term != e.term then now[..start + i] + [e]
            else now
  {
    MatchedIsFirst(log, start, entries, i);
    var k := Matched(log, start, entries);
    if i >= k { assert entries[k..i + 1] == entries[k..i] + [entries[i]]; }
  }

  lemma ProgressEnds(log: Log, m: Message)
    requires m.prevIndex >= -1 && Consistent(log, m.prevIndex, m.prevTerm)
    ensures Progress(log, m.prevIndex + 1, m.entries, 0) == log
    ensures Progress(log, m.prevIndex + 1, m.entries, |m.entries|) == Accept(log, m)
  {
  }

  /** The entry a node adds when it proposes. */
  function NextEntry(log: Log, term: int, content: string, nodeId: string): LogEntry { LogEntry(term, |log|, content, nodeId) }

  class ConsensusLog {
    const nodeId: string
    var currentTerm: int
    var log: Log
    var commitIndex: int

    constructor (nodeId: string)
      ensures this.nodeId == nodeId && log == [] && currentTerm == 0 && commitIndex == -1
    {
      this.nodeId := nodeId;
      currentTerm := 0;
      log := [];
      commitIndex := -1;
    }

    method Append(prevIndex: int, prevTerm: int, entries: Log) returns (ok: bool)
      requires prevIndex >= -1
      modifies this`log
      ensures ok <==> prevIndex == -1 || (prevIndex < |old(log)| && old(log)[prevIndex].term == prevTerm)
      ensures log == if ok then Accept(old(log), Message(prevIndex, prevTerm, entries)) else old(log)
    {
      if prevIndex >= 0 {
        if prevIndex >= |log| {
          return false;
        }
        if log[prevIndex].term != prevTerm {
          return false;
        }
      }
      hide Progress, Accept, Matched;
      var start := prevIndex + 1;
      ghost var before := log;
      ProgressEnds(before, Message(prevIndex, prevTerm, entries));
      for i := 0 to |entries|
        invariant start <= |before| && log == Progress(before, start, entries, i)
      {
        var idx := start + i;
        var entry := entries[i];
        ProgressStep(before, start, entries, i);
        if idx < |log| {
          if log[idx].term != entry.term {
            log := log[..idx];
            log := log + [entry];
          }
        } else {
          log := log + [entry];
        }
      }
      return true;
    }

    method Propose(content: string) returns (entry: LogEntry)
      modifies this`log
      ensures entry == LogEntry(currentTerm, |old(log)|, content, nodeId)
      ensures log == old(log) + [entry] && entry == NextEntry(old(log), currentTerm, content, nodeId)
    {
      entry := LogEntry(currentTerm, |log|, content, nodeId);
      log := log + [entry];
    }
  }

  /** After a consistent message the log carries every entry's term at its
      place, and ends with the message unless it already held all of it. */
  lemma {:induction false} AcceptHolds(log: Log, m: Message)
    requires m.prevIndex >= -1 && Consistent(log, m.prevIndex, m.prevTerm)
    ensures var start, after := m.prevIndex + 1, Accept(log, m);
            && |after| >= start + |m.entries|
            && after[..start] == log[..start]
            && (forall i :: 0 <= i < |m.entries| ==> after[start + i].term == m.entries[i].term)
            && (after != log ==> |after| == start + |m.entries|)
  {
    var start := m.prevIndex + 1;
    var k := Matched(log, start, m.entries);
    var after := if k == |m.entries| then log else log[..start + k] + m.entries[k..];
    forall i | 0 <= i < |m.entries|
      ensures after[start + i].term == m.entries[i].term
    {
      MatchedIsFirst(log, start, m.entries, i);
    }
  }

  /** What becomes of the log, entry by entry: where the previous entry is there
      with its term, the log is kept up to the first entry it lacks or holds under
      another term and continues with the message from there; it stays whole when
      there is no such entry. */
  lemma {:induction false} AcceptExactly(log: Log, m: Message, k: nat)
    requires m.prevIndex == -1 || (0 <= m.prevIndex < |log| && log[m.prevIndex].term == m.prevTerm)
    requires k <= |m.entries| && m.prevIndex + 1 + k <= |log|
    requires forall i :: 0 <= i < k ==> log[m.prevIndex + 1 + i].term == m.entries[i].term
    requires k < |m.entries| && m.prevIndex + 1 + k < |log| ==> log[m.prevIndex + 1 + k].term != m.entries[k].term
    ensures Accept(log, m) == if k == |m.entries| then log else log[..m.prevIndex + 1 + k] + m.entries[k..]
  {
    hide Matched;
    MatchedFrom(log, m.prevIndex + 1, m.entries, k);
  }

  lemma {:induction false} MatchedFrom(log: Log, start: nat, entries: Log, k: nat)
    requires k <= |entries| && start + k <= |log|
    requires forall i :: 0 <= i < k ==> log[start + i].term == entries[i].term
    requires k < |entries| && start + k < |log| ==> log[start + k].term != entries[k].term
    ensures Matched(log, start, entries) == k
    decreases k
  {
    if k > 0 {
      forall i | 0 <= i < k - 1
        ensures log[start + 1 + i].term == entries[1..][i].term
      {
        assert log[start + (i + 1)].term == entries[i + 1].term;
      }
      MatchedFrom(log, start + 1, entries[1..], k - 1);
    }
  }

  /** Delivering a message a second time changes nothing. */
  lemma {:induction false} AcceptTwice(log: Log, m: Message)
    requires m.prevIndex >= -1
    ensures Accept(Accept(log, m), m) == Accept(log, m)
  {
    if Consistent(log, m.prevIndex, m.prevTerm) {
      AcceptHolds(log, m);
      MatchedAll(Accept(log, m), m.prevIndex + 1, m.entries);
    }
  }

  // ------------------------------------------------------------ many nodes

  datatype Node = Node(log: Log, term: int, leading: bool)

  /** `claimed` holds the terms some node has ever led. */
  datatype State = State(nodes: map<string, Node>, net: set<Message>, claimed: set<int>)

  datatype Event =
    | Claim(n: string, term: int)       // environment: an unclaimed term goes to n
    | StepDown(n: string)               // environment: n stops proposing
    | Propose(n: string, content: string)
    | Send(n: string, prevIndex: int, upTo: nat)
    | Deliver(n: string, m: Message)
    | Lose(m: Message)

  predicate Initial(s: State) {
    s.net == {} && s.claimed == {} && forall n :: n in s.nodes ==> s.nodes[n] == Node([], 0, false)
  }

  /** What the code itself lets happen. */
  predicate Possible(s: State, e: Event) {
    match e
    case Claim(n, _) => n in s.nodes
    case StepDown(n) => n in s.nodes
    case Propose(n, _) => n in s.nodes
    case Send(n, prevIndex, upTo) => n in s.nodes && -1 <= prevIndex < upTo <= |s.nodes[n].log|
    case Deliver(n, m) => n in s.nodes && m in s.net && m.prevIndex >= -1
    case Lose(m) => true
  }

  /** First assumption: only the one node that claimed a term proposes in it. */
  predicate OneProposer(s: State, e: Event) {
    match e
    case Claim(_, term) => term !in s.claimed
    case Propose(n, _) => n in s.nodes ==> s.nodes[n].leading
    case _ => true
  }

  /** Second assumption: a node accepts nothing while it proposes. */
  predicate Quiet(s: State, e: Event) {
    match e
    case Deliver(n, _) => n in s.nodes ==> !s.nodes[n].leading
    case _ => true
  }

  predicate Enabled(s: State, e: Event) { Possible(s, e) && OneProposer(s, e) && Quiet(s, e) }

  /** The message a node sends: a slice of its log behind the entry at `prevIndex`. */
  function Slice(log: Log, prevIndex: int, upTo: nat): Message
    requires -1 <= prevIndex < upTo <= |log|
  {
    Message(prevIndex, if prevIndex >= 0 then log[prevIndex].term else 0, log[prevIndex + 1..upTo])
  }

  function Next(s: State, e: Event): State
    requires Possible(s, e)
  {
    match e
    case Claim(n, term) =>
      s.(nodes := s.nodes[n := s.nodes[n].(term := term, leading := true)], claimed := s.claimed + {term})
    case StepDown(n) => s.(nodes := s.nodes[n := s.nodes[n].(leading := false)])
    case Propose(n, content) =>
      var node := s.nodes[n];
      s.(nodes := s.nodes[n := node.(log := node.log + [NextEntry(node.log, node.term, content, n)])])
    case Send(n, prevIndex, upTo) => s.(net := s.net + {Slice(s.nodes[n].log, prevIndex, upTo)})
    case Deliver(n, m) => s.(nodes := s.nodes[n := s.nodes[n].(log := Accept(s.nodes[n].log, m))])
    case Lose(m) => s.(net := s.net - {m})
  }

  /** The state after the events, each enabled in turn; None if one was not. */
  function Run(s: State, events: seq<Event>): Option<State> {
    if events == [] then Some(s)
    else
      var last := events[|events| - 1];
      match Run(s, events[..|events| - 1])
      case None => None
      case Some(p) => if Enabled(p, last) then Some(Next(p, last)) else None
  }

  // ------------------------------------------------------------- invariant

  /** What each claimed term's leader has written: its log up to its last proposal. */
  type History = map<int, Log>

  /** The entry at `i` is at its own index, under the very prefix its leader had. */
  predicate TracedAt(log: Log, h: History, i: nat)
    requires i < |log|
  {
    log[i].index == i && log[i].term in h && log[..i + 1] <= h[log[i].term]
  }

  predicate Traced(log: Log, h: History) {
    forall i :: 0 <= i < |log| ==> TracedAt(log, h, i)
  }

  ghost predicate SliceOfTraced(m: Message, h: History) {
    exists snapshot: Log, upTo: nat ::
      -1 <= m.prevIndex < upTo <= |snapshot| && m == Slice(snapshot, m.prevIndex, upTo) && Traced(snapshot, h)
  }

  ghost predicate Invariant(s: State, h: History) {
    && h.Keys <= s.claimed
    && (forall n :: n in s.nodes ==> Traced(s.nodes[n].log, h))
    && (forall m :: m in s.net ==> SliceOfTraced(m, h))
    && (forall n :: n in s.nodes && s.nodes[n].leading ==>
         s.nodes[n].term in s.claimed
         && (s.nodes[n].term in h ==> h[s.nodes[n].term] == s.nodes[n].log))
    && (forall a, b | a in s.nodes && b in s.nodes && s.nodes[a].leading && s.nodes[b].leading ::
         s.nodes[a].term == s.nodes[b].term ==> a == b)
  }

  /** Two traced logs that agree on a term at an index agree up to that index. */
  lemma TracedAgree(a: Log, b: Log, h: History, i: nat)
    requires Traced(a, h) && Traced(b, h) && i < |a| && i < |b| && a[i].term == b[i].term
    ensures a[..i + 1] == b[..i + 1]
  {
    assert TracedAt(a, h, i) && TracedAt(b, h, i);
    var l := h[a[i].term];
    assert a[..i + 1] == l[..i + 1] == b[..i + 1];
  }

  lemma TracedPrefix(log: Log, h: History, k: nat)
    requires Traced(log, h) && k <= |log|
    ensures Traced(log[..k], h)
  {
    var p := log[..k];
    forall i | 0 <= i < |p|
      ensures TracedAt(p, h, i)
    {
      assert TracedAt(log, h, i);
      assert p[..i + 1] == log[..i + 1];
    }
  }

  lemma MatchedAgrees(log: Log, snapshot: Log, h: History, start: nat, entries: Log)
    requires Traced(log, h) && Traced(snapshot, h)
    requires start + |entries| <= |snapshot| && entries == snapshot[start..start + |entries|]
    requires start > 0 ==> start <= |log| && log[start - 1].term == snapshot[start - 1].term
    ensures var cut := start + Matched(log, start, entries);
            cut <= |log| && log[..cut] == snapshot[..cut]
  {
    var k := Matched(log, start, entries);
    var cut := start + k;
    if cut > 0 {
      if k > 0 {
        assert entries[k - 1] == snapshot[cut - 1];
        MatchedIsFirst(log, start, entries, k - 1);
      }
      TracedAgree(log, snapshot, h, cut - 1);
    }
  }

  lemma Resume(log: Log, snapshot: Log, start: nat, k: nat, upTo: nat)
    requires start + k <= upTo <= |snapshot| && start + k <= |log|
    requires log[..start + k] == snapshot[..start + k]
    ensures log[..start + k] + snapshot[start..upTo][k..] == snapshot[..upTo]
  {
    assert snapshot[start..upTo][k..] == snapshot[start + k..upTo];
  }

  lemma AcceptIs(log: Log, m: Message)
    requires m.prevIndex >= -1
    ensures !Consistent(log, m.prevIndex, m.prevTerm) ==> Accept(log, m) == log
    ensures Consistent(log, m.prevIndex, m.prevTerm) ==>
              var start := m.prevIndex + 1;
              var k := Matched(log, start, m.entries);
              Accept(log, m) == if k == |m.entries| then log else log[..start + k] + m.entries[k..]
  {
  }

  /** What an accepted message leaves at index `i`. */
  lemma {:induction false} TermAfter(log: Log, m: Message, i: nat)
    requires m.prevIndex >= -1 && Consistent(log, m.prevIndex, m.prevTerm) && i < m.prevIndex + 1 + |m.entries|
    ensures |Accept(log, m)| >= m.prevIndex + 1 + |m.entries|
    ensures i <= m.prevIndex ==> Accept(log, m)[i] == log[i]
    ensures i > m.prevIndex ==> Accept(log, m)[i].term == m.entries[i - (m.prevIndex + 1)].term
  {
    hide Accept;
    AcceptHolds(log, m);
    if i <= m.prevIndex {
      assert Accept(log, m)[..m.prevIndex + 1][i] == log[..m.prevIndex + 1][i];
    } else {
      var j := i - (m.prevIndex + 1);
      assert Accept(log, m)[m.prevIndex + 1 + j].term == m.entries[j].term;
    }
  }

  /** Progress: every log that reaches the previous index with the sender's term
      there takes the slice, whatever it holds behind: it keeps what it has up to
      that index and carries the sender's terms from there to the last entry sent. */
  lemma {:induction false} SliceIsTaken(log: Log, sent: Log, prevIndex: int, upTo: nat, i: nat)
    requires -1 <= prevIndex < upTo <= |sent| && i < upTo
    requires prevIndex >= 0 ==> prevIndex < |log| && log[prevIndex].term == sent[prevIndex].term
    ensures var after := Accept(log, Slice(sent, prevIndex, upTo));
            && |after| >= upTo && (after == log || |after| == upTo)
            && (if i <= prevIndex then after[i] == log[i] else after[i].term == sent[i].term)
  {
    hide Matched, Accept;
    var m := Slice(sent, prevIndex, upTo);
    TermAfter(log, m, i);
    AcceptHolds(log, m);
  }

  /** A delivery leaves a traced log as it is, or makes it exactly the sender's
      snapshot up to the last entry sent. Which of the two it is depends on the
      previous index alone: where the log agrees with the sender there, it ends
      with the snapshot or has begun with it all along. */
  lemma {:induction false} AcceptSlice(log: Log, snapshot: Log, h: History, prevIndex: int, upTo: nat)
    requires Traced(log, h) && Traced(snapshot, h) && -1 <= prevIndex < upTo <= |snapshot|
    ensures var after := Accept(log, Slice(snapshot, prevIndex, upTo));
            if prevIndex == -1 || (prevIndex < |log| && log[prevIndex].term == snapshot[prevIndex].term)
            then after == snapshot[..upTo] || (after == log && snapshot[..upTo] <= log)
            else after == log
  {
    hide Matched, Traced, TracedAt, Accept;
    var m := Slice(snapshot, prevIndex, upTo);
    var start, entries := prevIndex + 1, m.entries;
    AcceptIs(log, m);
    assert start + |entries| == upTo && entries == snapshot[start..upTo];
    if Consistent(log, prevIndex, m.prevTerm) {
      MatchedAgrees(log, snapshot, h, start, entries);
      Resume(log, snapshot, start, Matched(log, start, entries), upTo);
    }
  }

  /** A longer log of one leader traces whatever the shorter one traced. */
  lemma TracedGrows(log: Log, h: History, term: int, leaderLog: Log, e: LogEntry)
    requires Traced(log, h) && (term in h ==> h[term] == leaderLog)
    ensures Traced(log, h[term := leaderLog + [e]])
  {
    var h' := h[term := leaderLog + [e]];
    forall i | 0 <= i < |log|
      ensures TracedAt(log, h', i)
    {
      assert TracedAt(log, h, i);
    }
  }

  lemma ProposedIsTraced(log: Log, h: History, e: LogEntry)
    requires Traced(log, h) && (e.term in h ==> h[e.term] == log) && e.index == |log|
    ensures Traced(log + [e], h[e.term := log + [e]])
  {
    var log', h' := log + [e], h[e.term := log + [e]];
    TracedGrows(log, h, e.term, log, e);
    forall i | 0 <= i < |log'|
      ensures TracedAt(log', h', i)
    {
      if i < |log| {
        assert TracedAt(log, h', i);
        assert log'[i] == log[i] && log'[..i + 1] == log[..i + 1];
      }
    }
  }

  lemma ProposeKeeps(s: State, n: string, content: string, h: History)
    requires Invariant(s, h) && Enabled(s, Propose(n, content))
    ensures var node := s.nodes[n];
            var e := LogEntry(node.term, |node.log|, content, n);
            Invariant(Next(s, Propose(n, content)), h[node.term := node.log + [e]])
  {
    var node := s.nodes[n];
    var e := LogEntry(node.term, |node.log|, content, n);
    var h' := h[node.term := node.log + [e]];
    var s' := Next(s, Propose(n, content));
    ProposedIsTraced(node.log, h, e);
    forall x | x in s'.nodes
      ensures Traced(s'.nodes[x].log, h')
    {
      if x != n { TracedGrows(s.nodes[x].log, h, node.term, node.log, e); }
    }
    forall m | m in s'.net
      ensures SliceOfTraced(m, h')
    {
      var snapshot: Log, upTo: nat :| -1 <= m.prevIndex < upTo <= |snapshot|
        && m == Slice(snapshot, m.prevIndex, upTo) && Traced(snapshot, h);
      TracedGrows(snapshot, h, node.term, node.log, e);
    }
  }

  lemma {:induction false} DeliverKeeps(s: State, n: string, m: Message, h: History)
    requires Invariant(s, h) && Enabled(s, Deliver(n, m))
    ensures Invariant(Next(s, Deliver(n, m)), h)
  {
    hide Traced, Accept, Slice;
    assert SliceOfTraced(m, h);
    var snapshot: Log, upTo: nat :| -1 <= m.prevIndex < upTo <= |snapshot|
      && m == Slice(snapshot, m.prevIndex, upTo) && Traced(snapshot, h);
    AcceptSlice(s.nodes[n].log, snapshot, h, m.prevIndex, upTo);
    TracedPrefix(snapshot, h, upTo);
    ReplacingKeeps(s, n, Accept(s.nodes[n].log, m), h);
  }

  lemma ReplacingKeeps(s: State, n: string, log: Log, h: History)
    requires Invariant(s, h) && n in s.nodes && !s.nodes[n].leading && Traced(log, h)
    ensures Invariant(s.(nodes := s.nodes[n := s.nodes[n].(log := log)]), h)
  {
    hide Traced, SliceOfTraced;
  }

  lemma SliceIsTraced(log: Log, h: History, prevIndex: int, upTo: nat)
    requires Traced(log, h) && -1 <= prevIndex < upTo <= |log|
    ensures SliceOfTraced(Slice(log, prevIndex, upTo), h)
  {
    hide Traced;
  }

  /** Every enabled step keeps the invariant, for a possibly longer history
      that still traces any log the old one did. */
  lemma {:induction false} StepKeeps(s: State, e: Event, h: History, kept: Log) returns (h': History)
    requires Invariant(s, h) && Enabled(s, e) && Traced(kept, h)
    ensures Invariant(Next(s, e), h') && Traced(kept, h')
  {
    hide Traced, SliceOfTraced, Accept, Slice;
    h' := h;
    match e
    case Propose(n, content) =>
      var node := s.nodes[n];
      var entry := LogEntry(node.term, |node.log|, content, n);
      ProposeKeeps(s, n, content, h);
      TracedGrows(kept, h, node.term, node.log, entry);
      h' := h[node.term := node.log + [entry]];
    case Deliver(n, m) => DeliverKeeps(s, n, m, h);
    case Send(n, prevIndex, upTo) => SliceIsTraced(s.nodes[n].log, h, prevIndex, upTo);
    case Claim(n, term) =>
    case StepDown(n) =>
    case Lose(m) =>
  }

  lemma {:induction false} RunKeeps(s: State, events: seq<Event>, h: History, kept: Log) returns (h': History)
    requires Invariant(s, h) && Traced(kept, h) && Run(s, events).Some?
    ensures Invariant(Run(s, events).value, h') && Traced(kept, h')
  {
    if events == [] {
      h' := h;
    } else {
      var before := events[..|events| - 1];
      var h0 := RunKeeps(s, before, h, kept);
      h' := StepKeeps(Run(s, before).value, events[|events| - 1], h0, kept);
    }
  }

  // ---------------------------------------------------------- main results

  /** Log Matching: after any run, two logs that hold entries with equal index
      and term hold them at that index, and are identical up to it. */
  lemma {:induction false} LogMatching(s0: State, events: seq<Event>, s: State, a: string, b: string, i: nat, j: nat)
    requires Initial(s0) && Run(s0, events) == Some(s) && a in s.nodes && b in s.nodes
    requires i < |s.nodes[a].log| && j < |s.nodes[b].log|
    requires s.nodes[a].log[i].index == s.nodes[b].log[j].index
    requires s.nodes[a].log[i].term == s.nodes[b].log[j].term
    ensures i == j == s.nodes[a].log[i].index
    ensures s.nodes[a].log[..i + 1] == s.nodes[b].log[..i + 1]
  {
    var h := RunKeeps(s0, events, map[], []);
    assert TracedAt(s.nodes[a].log, h, i) && TracedAt(s.nodes[b].log, h, j);
    TracedAgree(s.nodes[a].log, s.nodes[b].log, h, i);
  }

  /** Whenever a message arrives, and however often: a receiver that agrees with
      the sender's term at the previous index ends with exactly what the sender's
      log was up to the last entry sent, at the moment of sending, or keeps a log
      that already begins with it; any other receiver keeps its log. */
  lemma {:induction false} DeliveryCopiesSender(s0: State, before: seq<Event>, atSend: State, from: string, prevIndex: int, upTo: nat,
                             after: seq<Event>, s: State, to: string)
    requires Initial(s0) && Run(s0, before) == Some(atSend) && Enabled(atSend, Send(from, prevIndex, upTo))
    requires Run(Next(atSend, Send(from, prevIndex, upTo)), after) == Some(s) && to in s.nodes
    ensures var sent := atSend.nodes[from].log;
            var log, m := s.nodes[to].log, Slice(sent, prevIndex, upTo);
            Possible(s, Deliver(to, m)) ==>
              var result := Next(s, Deliver(to, m)).nodes[to].log;
              if prevIndex == -1 || (prevIndex < |log| && log[prevIndex].term == sent[prevIndex].term)
              then result == sent[..upTo] || (result == log && sent[..upTo] <= log)
              else result == log
  {
    var sent := atSend.nodes[from].log;
    var h := RunKeeps(s0, before, map[], []);
    h := StepKeeps(atSend, Send(from, prevIndex, upTo), h, sent);
    h := RunKeeps(Next(atSend, Send(from, prevIndex, upTo)), after, h, sent);
    AcceptSlice(s.nodes[to].log, sent, h, prevIndex, upTo);
  }

  // ------------------------------------------------ both assumptions are needed

  /** A run of which only the assumptions asked for are made. */
  function RunIf(s: State, events: seq<Event>, one: bool, quiet: bool): Option<State> {
    if events == [] then Some(s)
    else
      var last := events[|events| - 1];
      match RunIf(s, events[..|events| - 1], one, quiet)
      case None => None
      case Some(p) =>
        if Possible(p, last) && (one ==> OneProposer(p, last)) && (quiet ==> Quiet(p, last)) then Some(Next(p, last)) else None
  }

  lemma {:induction false} RunIsBoth(s: State, events: seq<Event>)
    ensures RunIf(s, events, true, true) == Run(s, events)
  {
    if events != [] { RunIsBoth(s, events[..|events| - 1]); }
  }

  lemma RunOn(s0: State, events: seq<Event>, s: State, e: Event, one: bool, quiet: bool)
    requires RunIf(s0, events, one, quiet) == Some(s)
    requires Possible(s, e) && (one ==> OneProposer(s, e)) && (quiet ==> Quiet(s, e))
    ensures RunIf(s0, events + [e], one, quiet) == Some(Next(s, e))
  {
    assert (events + [e])[..|events|] == events;
  }

  ghost predicate LogsMatch(s: State) {
    forall a, b, i, j | a in s.nodes && b in s.nodes && 0 <= i < |s.nodes[a].log| && 0 <= j < |s.nodes[b].log| ::
      SameEntry(s.nodes[a].log, s.nodes[b].log, i, j) ==> i == j && s.nodes[a].log[..i + 1] == s.nodes[b].log[..i + 1]
  }

  predicate SameEntry(a: Log, b: Log, i: nat, j: nat)
    requires i < |a| && j < |b|
  {
    a[i].index == b[j].index && a[i].term == b[j].term
  }

  function Two(a: Node, b: Node, net: set<Message>, claimed: set<int>): State {
    State(map["a" := a, "b" := b], net, claimed)
  }

  lemma TwoNodes(a: Node, b: Node, net: set<Message>, claimed: set<int>)
    ensures var s := Two(a, b, net, claimed);
            && s.nodes.Keys == {"a", "b"} && s.nodes["a"] == a && s.nodes["b"] == b
            && s.nodes["a" := a] == s.nodes && s.net == net && s.claimed == claimed
    ensures forall x: Node {:trigger Two(x, b, net, claimed)} ::
              Two(a, b, net, claimed).nodes["a" := x] == Two(x, b, net, claimed).nodes
  {
    Names();
    var s := Two(a, b, net, claimed);
    forall x: Node
      ensures s.nodes["a" := x] == Two(x, b, net, claimed).nodes
    {
    }
  }

  /** Without the first assumption: two fresh logs propose in term 0. */
  lemma {:induction false} SharedTermBreaksMatching() returns (s0: State, events: seq<Event>, s: State)
    ensures Initial(s0) && RunIf(s0, events, false, true) == Some(s) && !LogsMatch(s)
  {
    var idle := Node([], 0, false);
    var x, y := LogEntry(0, 0, "x", "a"), LogEntry(0, 0, "y", "b");
    s0 := Two(idle, idle, {}, {});
    var s1 := Two(Node([x], 0, false), idle, {}, {});
    s := Two(Node([x], 0, false), Node([y], 0, false), {}, {});
    var e1, e2 := Propose("a", "x"), Propose("b", "y");
    Names();
    assert [] + [x] == [x] && [] + [y] == [y];
    assert s1.nodes == s0.nodes["a" := Node([x], 0, false)] && s.nodes == s1.nodes["b" := Node([y], 0, false)];
    RunOn(s0, [], s0, e1, false, true);
    RunOn(s0, [] + [e1], s1, e2, false, true);
    events := [] + [e1] + [e2];
    assert SameEntry(s.nodes["a"].log, s.nodes["b"].log, 0, 0) && s.nodes["a"].log[..1][0] != s.nodes["b"].log[..1][0];
  }

  lemma Names()
    ensures "a" != "b" && "x" != "y" && "w" != "z"
  {
    assert "a"[0] == 'a' && "b"[0] == 'b' && "x"[0] == 'x' && "y"[0] == 'y' && "w"[0] == 'w' && "z"[0] == 'z';
  }

  /** Without the second: a proposer accepts a message of an earlier term, which
      truncates what it has already sent, and then proposes at the same place in
      the same term again. */
  lemma {:induction false} AcceptingProposerBreaksMatching() returns (s0: State, events: seq<Event>, s: State)
    ensures Initial(s0) && RunIf(s0, events, true, false) == Some(s) && !LogsMatch(s)
  {
    hide LogsMatch, RunIf, Accept;
    var idle := Node([], 0, false);
    s0 := Two(idle, idle, {}, {});
    Names();
    var y, x, w, z := LogEntry(1, 0, "y", "b"), LogEntry(2, 0, "x", "a"), LogEntry(2, 1, "w", "a"), LogEntry(2, 1, "z", "a");
    var early, late := Message(-1, 0, [y]), Message(-1, 0, [x, w]);
    var s3 := Two(idle, Node([y], 1, false), {early}, {1});
    var events3 := FirstTerm(s0, s3, y, early);
    var s7 := Two(Node([x, w], 2, true), Node([y], 1, false), {early, late}, {1, 2});
    var events7 := SecondTerm(s0, events3, s3, s7, y, x, w, early, late);
    LateAccepts(y, x, w, early, late);
    var s8 := Two(Node([x, w], 2, true), Node([x, w], 1, false), {early, late}, {1, 2});
    assert s8.nodes == s7.nodes["b" := Node([x, w], 1, false)];
    RunOn(s0, events7, s7, Deliver("b", late), true, false);
    var s9 := Two(Node([y], 2, true), Node([x, w], 1, false), {early, late}, {1, 2});
    assert s9.nodes == s8.nodes["a" := Node([y], 2, true)];
    RunOn(s0, events7 + [Deliver("b", late)], s8, Deliver("a", early), true, false);
    s := Two(Node([y, z], 2, true), Node([x, w], 1, false), {early, late}, {1, 2});
    assert [y] + [z] == [y, z];
    assert s.nodes == s9.nodes["a" := Node([y, z], 2, true)];
    RunOn(s0, events7 + [Deliver("b", late)] + [Deliver("a", early)], s9, Propose("a", "z"), true, false);
    events := events7 + [Deliver("b", late)] + [Deliver("a", early)] + [Propose("a", "z")];
    Unmatched(s, y, z, x, w);
  }

  lemma RunNone(s0: State, one: bool, quiet: bool)
    ensures RunIf(s0, [], one, quiet) == Some(s0)
  {
  }

  lemma FirstTerm(s0: State, s: State, y: LogEntry, early: Message) returns (events: seq<Event>)
    requires var idle := Node([], 0, false); s0 == Two(idle, idle, {}, {}) && s == Two(idle, Node([y], 1, false), {early}, {1})
    requires y == LogEntry(1, 0, "y", "b") && early == Message(-1, 0, [y])
    ensures RunIf(s0, events, true, false) == Some(s)
  {
    hide RunIf;
    Names();
    RunNone(s0, true, false);
    var idle := Node([], 0, false);
    var s1, s2 := Two(idle, Node([], 1, true), {}, {1}), Two(idle, Node([y], 1, true), {}, {1});
    var s3 := Two(idle, Node([y], 1, true), {early}, {1});
    assert s1.nodes == s0.nodes["b" := Node([], 1, true)] && s2.nodes == s1.nodes["b" := Node([y], 1, true)];
    assert s.nodes == s3.nodes["b" := Node([y], 1, false)] && [] + [y] == [y] && [y][0..1] == [y];
    assert {} + {1} == {1};
    RunOn(s0, [], s0, Claim("b", 1), true, false);
    RunOn(s0, [] + [Claim("b", 1)], s1, Propose("b", "y"), true, false);
    RunOn(s0, [] + [Claim("b", 1)] + [Propose("b", "y")], s2, Send("b", -1, 1), true, false);
    assert Slice([y], -1, 1) == early && {} + {early} == {early};
    RunOn(s0, [] + [Claim("b", 1)] + [Propose("b", "y")] + [Send("b", -1, 1)], s3, StepDown("b"), true, false);
    events := [] + [Claim("b", 1)] + [Propose("b", "y")] + [Send("b", -1, 1)] + [StepDown("b")];
  }

  lemma SecondTerm(s0: State, before: seq<Event>, s: State, s': State, y: LogEntry, x: LogEntry, w: LogEntry, early: Message, late: Message)
    returns (events: seq<Event>)
    requires RunIf(s0, before, true, false) == Some(s) && s == Two(Node([], 0, false), Node([y], 1, false), {early}, {1})
    requires s' == Two(Node([x, w], 2, true), Node([y], 1, false), {early, late}, {1, 2})
    requires x == LogEntry(2, 0, "x", "a") && w == LogEntry(2, 1, "w", "a") && late == Message(-1, 0, [x, w])
    ensures RunIf(s0, events, true, false) == Some(s')
  {
    hide RunIf, Accept, Slice, Two;
    SliceAll([x, w]);
    var b := Node([y], 1, false);
    var s1, s2 := Two(Node([], 2, true), b, {early}, {1, 2}), Two(Node([x], 2, true), b, {early}, {1, 2});
    var s3 := Two(Node([x, w], 2, true), b, {early}, {1, 2});
    TwoNodes(Node([], 0, false), b, {early}, {1});
    TwoNodes(Node([], 0, false), b, {early}, {1, 2});
    TwoNodes(Node([], 2, true), b, {early}, {1, 2});
    TwoNodes(Node([x], 2, true), b, {early}, {1, 2});
    TwoNodes(Node([x, w], 2, true), b, {early}, {1, 2});
    TwoNodes(Node([x, w], 2, true), b, {early, late}, {1, 2});
    SameNodes(Node([], 2, true), b, {early}, {1}, {early}, {1, 2});
    SameNodes(Node([x, w], 2, true), b, {early}, {1, 2}, {early, late}, {1, 2});
    assert [] + [x] == [x] && [x] + [w] == [x, w] && {1} + {2} == {1, 2};
    var e1, e2, e3, e4 := Claim("a", 2), Propose("a", "x"), Propose("a", "w"), Send("a", -1, 2);
    RunOn(s0, before, s, e1, true, false);
    RunOn(s0, before + [e1], s1, e2, true, false);
    RunOn(s0, before + [e1] + [e2], s2, e3, true, false);
    assert {early} + {late} == {early, late};
    RunOn(s0, before + [e1] + [e2] + [e3], s3, e4, true, false);
    events := before + [e1] + [e2] + [e3] + [e4];
  }

  lemma SameNodes(a: Node, b: Node, net: set<Message>, claimed: set<int>, net': set<Message>, claimed': set<int>)
    ensures Two(a, b, net, claimed).nodes == Two(a, b, net', claimed').nodes
  {
  }

  lemma SliceAll(log: Log)
    requires log != []
    ensures Slice(log, -1, |log|) == Message(-1, 0, log)
  {
    assert log[0..|log|] == log;
  }

  lemma LateAccepts(y: LogEntry, x: LogEntry, w: LogEntry, early: Message, late: Message)
    requires y.term == 1 && x.term == w.term == 2 && early == Message(-1, 0, [y]) && late == Message(-1, 0, [x, w])
    ensures Accept([y], late) == [x, w] && Accept([x, w], early) == [y]
  {
    assert Matched([y], 0, [x, w]) == 0 && Matched([x, w], 0, [y]) == 0;
    assert [y][..0] + [x, w][0..] == [x, w] && [x, w][..0] + [y][0..] == [y];
  }

  lemma Unmatched(s: State, y: LogEntry, z: LogEntry, x: LogEntry, w: LogEntry)
    requires "a" in s.nodes && "b" in s.nodes && s.nodes["a"].log == [y, z] && s.nodes["b"].log == [x, w]
    requires z.index == w.index && z.term == w.term && y != x
    ensures !LogsMatch(s)
  {
    var a, b := s.nodes["a"].log, s.nodes["b"].log;
    assert SameEntry(a, b, 1, 1);
    assert a[..2][0] == y && b[..2][0] == x;
  }
}
