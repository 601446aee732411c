/** The warm sandbox pool of services/executor/sandbox_pool.py, as interleaved
    steps of many threads.

    A step is what a thread does in one go under the pool lock, or one container
    command outside it. Container ids are fresh, a creation may fail, and the
    liveness check may answer anything; a negative answer is recorded. */
module SandboxPool {
  import opened Common

  type Cid = nat

  datatype Phase =
    | Idle
    | Creating(run: string)                  // get_or_create found none alive
    | Holding(run: string, cid: Cid)         // created, not yet inserted
    | Destroying(cid: Cid, rest: seq<string>) // popped, not yet destroyed
    | Reaping(rest: seq<string>)             // runs the reaper has still to destroy

  datatype Returned = Returned(run: string, cid: Cid)

  datatype State = State(pool: map<string, Cid>, threads: map<nat, Phase>, owner: map<Cid, string>,
                         destroyed: set<Cid>, replaced: set<Cid>, dead: set<Cid>, returned: set<Returned>)

  datatype Event =
    | Lookup(t: nat, run: string, alive: bool)
    | Create(t: nat, cid: Option<Cid>)
    | Insert(t: nat, alive: bool)
    | Pop(t: nat, run: string)
    | Destroy(t: nat)
    | Scan(t: nat, idle: seq<string>)
    | ReapNext(t: nat)

  predicate Initial(s: State) {
    s.pool == map[] && s.owner == map[] && s.destroyed == {} && s.replaced == {} && s.dead == {} && s.returned == {}
    && forall t :: t in s.threads ==> s.threads[t] == Idle
  }

  predicate Enabled(s: State, e: Event) {
    && e.t in s.threads
    && match e
       case Lookup(t, _, _) => s.threads[t] == Idle
       case Create(t, cid) => s.threads[t].Creating? && (cid.Some? ==> cid.value !in s.owner)
       case Insert(t, _) => s.threads[t].Holding?
       case Pop(t, _) => s.threads[t] == Idle
       case Destroy(t) => s.threads[t].Destroying?
       case Scan(t, idle) => s.threads[t] == Idle && forall r :: r in idle ==> r in s.pool
       case ReapNext(t) => s.threads[t].Reaping?
  }

  function Goes(s: State, t: nat, p: Phase): State { s.(threads := s.threads[t := p]) }

  function Remaining(rest: seq<string>): Phase { if rest == [] then Idle else Reaping(rest) }

  /** `destroy_run` up to the lock's release: pop the run's container, if any. */
  function PopRun(s: State, t: nat, run: string, rest: seq<string>): State {
    if run in s.pool then Goes(s, t, Destroying(s.pool[run], rest)).(pool := s.pool - {run})
    else Goes(s, t, Remaining(rest))
  }

  function Next(s: State, e: Event): State
    requires Enabled(s, e)
  {
    match e
    case Lookup(t, run, alive) =>
      if run in s.pool && alive then s.(returned := s.returned + {Returned(run, s.pool[run])})
      else Goes(s, t, Creating(run)).(dead := if run in s.pool then s.dead + {s.pool[run]} else s.dead)
    case Create(t, cid) =>
      (match cid
       case None => Goes(s, t, Idle)
       case Some(c) => Goes(s, t, Holding(s.threads[t].run, c)).(owner := s.owner[c := s.threads[t].run]))
    case Insert(t, alive) =>
      var run, cid := s.threads[t].run, s.threads[t].cid;
      if run in s.pool && alive then
        Goes(s, t, Idle).(destroyed := s.destroyed + {cid}, returned := s.returned + {Returned(run, s.pool[run])})
      else
        var old_ := if run in s.pool then {s.pool[run]} else {};
        Goes(s, t, Idle).(pool := s.pool[run := cid], dead := s.dead + old_, replaced := s.replaced + old_,
                          returned := s.returned + {Returned(run, cid)})
    case Pop(t, run) => PopRun(s, t, run, [])
    case Destroy(t) => Goes(s, t, Remaining(s.threads[t].rest)).(destroyed := s.destroyed + {s.threads[t].cid})
    case Scan(t, idle) => Goes(s, t, Remaining(idle))
    case ReapNext(t) =>
      var rest := s.threads[t].rest;
      if rest == [] then Goes(s, t, Idle) else PopRun(s, t, rest[0], rest[1..])
  }

  function Run(s: State, events: seq<Event>): Option<State> {
    if events == [] then Some(s)
    else
      var last := events[|events| - 1];
      match Run(s, events[..|events| - 1])
      case None => None
      case Some(p) => if Enabled(p, last) then Some(Next(p, last)) else None
  }

  // ------------------------------------------------------ where a container is

  datatype Where = Held(t: nat) | Pooled | Dying(t: nat) | Gone | Replaced

  /** Container `c` is there, in state `s`. */
  predicate IsAt(s: State, c: Cid, w: Where) {
    match w
    case Held(t) => t in s.threads && s.threads[t].Holding? && s.threads[t].cid == c
    case Pooled => c in s.owner && s.owner[c] in s.pool && s.pool[s.owner[c]] == c
    case Dying(t) => t in s.threads && s.threads[t].Destroying? && s.threads[t].cid == c
    case Gone => c in s.destroyed
    case Replaced => c in s.replaced
  }

  /** Every created container has one place and no other. */
  ghost predicate Placed(s: State, places: map<Cid, Where>) {
    && places.Keys == s.owner.Keys
    && (forall c, w :: c in s.owner && IsAt(s, c, w) ==> w == places[c])
    && (forall c :: c in s.owner ==> IsAt(s, c, places[c]))
  }

  /** Nothing refers to a container that was not created, and a run's pool entry
      and handle are containers created for it. */
  predicate Known(s: State) {
    && (forall r :: r in s.pool ==> s.pool[r] in s.owner && s.owner[s.pool[r]] == r)
    && (forall t :: t in s.threads && s.threads[t].Holding? ==>
         s.threads[t].cid in s.owner && s.owner[s.threads[t].cid] == s.threads[t].run)
    && (forall t :: t in s.threads && s.threads[t].Destroying? ==> s.threads[t].cid in s.owner)
    && s.destroyed <= s.owner.Keys && s.replaced <= s.dead
    && s.replaced <= s.owner.Keys
  }

  /** The place of the one container a step moves, after the step. */
  function Moved(s: State, places: map<Cid, Where>, e: Event): map<Cid, Where>
    requires Enabled(s, e)
  {
    match e
    case Lookup(_, _, _) => places
    case Create(t, cid) => if cid.Some? then places[cid.value := Held(t)] else places
    case Insert(t, alive) =>
      var run, cid := s.threads[t].run, s.threads[t].cid;
      if run in s.pool && alive then places[cid := Gone]
      else (if run in s.pool then places[s.pool[run] := Replaced] else places)[cid := Pooled]
    case Pop(t, run) => if run in s.pool then places[s.pool[run] := Dying(t)] else places
    case Destroy(t) => places[s.threads[t].cid := Gone]
    case Scan(_, _) => places
    case ReapNext(t) =>
      var rest := s.threads[t].rest;
      if rest != [] && rest[0] in s.pool then places[s.pool[rest[0]] := Dying(t)] else places
  }

  ghost predicate PlaceKept(s: State, e: Event, places: map<Cid, Where>, c: Cid, w: Where)
    requires Enabled(s, e)
  {
    c in Moved(s, places, e) && (IsAt(Next(s, e), c, w) <==> w == Moved(s, places, e)[c])
  }

  lemma PopPlaces(s: State, t: nat, run: string, rest: seq<string>, places: map<Cid, Where>, c: Cid, w: Where)
    requires t in s.threads && !s.threads[t].Holding? && !s.threads[t].Destroying?
    requires Known(s) && Placed(s, places) && c in s.owner
    ensures var places' := if run in s.pool then places[s.pool[run] := Dying(t)] else places;
            IsAt(PopRun(s, t, run, rest), c, w) <==> w == places'[c]
  {
    assert IsAt(s, c, places[c]) && (IsAt(s, c, w) ==> w == places[c]);
    if run in s.pool { assert IsAt(s, s.pool[run], Pooled); }
  }

  /** The thread finds another container in place and destroys its own. */
  lemma InsertRacedPlaces(s: State, t: nat, alive: bool, places: map<Cid, Where>, c: Cid, w: Where)
    requires Enabled(s, Insert(t, alive)) && Known(s) && Placed(s, places) && c in s.owner
    requires s.threads[t].run in s.pool && alive
    ensures PlaceKept(s, Insert(t, alive), places, c, w)
  {
    assert IsAt(s, c, places[c]) && (IsAt(s, c, w) ==> w == places[c]);
    assert IsAt(s, s.threads[t].cid, Held(t)) && IsAt(s, s.pool[s.threads[t].run], Pooled);
  }

  /** The thread pools its container, over one reported dead if there is one. */
  lemma InsertPooledPlaces(s: State, t: nat, alive: bool, places: map<Cid, Where>, c: Cid, w: Where)
    requires Enabled(s, Insert(t, alive)) && Known(s) && Placed(s, places) && c in s.owner
    requires !(s.threads[t].run in s.pool && alive)
    ensures PlaceKept(s, Insert(t, alive), places, c, w)
  {
    assert IsAt(s, c, places[c]) && (IsAt(s, c, w) ==> w == places[c]);
    assert IsAt(s, s.threads[t].cid, Held(t));
    if s.threads[t].run in s.pool { assert IsAt(s, s.pool[s.threads[t].run], Pooled); }
    hide Placed, Known;
    match w
    case Held(_) =>
    case Pooled =>
    case Dying(_) =>
    case Gone =>
    case Replaced =>
  }

  lemma CreatePlaces(s: State, t: nat, cid: Option<Cid>, places: map<Cid, Where>, c: Cid, w: Where)
    requires Enabled(s, Create(t, cid)) && Known(s) && Placed(s, places) && c in Next(s, Create(t, cid)).owner
    ensures PlaceKept(s, Create(t, cid), places, c, w)
  {
    if c in s.owner { assert IsAt(s, c, places[c]) && (IsAt(s, c, w) ==> w == places[c]); }
  }

  lemma DestroyPlaces(s: State, t: nat, places: map<Cid, Where>, c: Cid, w: Where)
    requires Enabled(s, Destroy(t)) && Known(s) && Placed(s, places) && c in s.owner
    ensures PlaceKept(s, Destroy(t), places, c, w)
  {
    assert IsAt(s, c, places[c]) && (IsAt(s, c, w) ==> w == places[c]);
    assert IsAt(s, s.threads[t].cid, Dying(t));
  }

  /** Looking up and scanning move no container, nor does reaping by itself. */
  lemma QuietPlaces(s: State, e: Event, places: map<Cid, Where>, c: Cid, w: Where)
    requires Enabled(s, e) && Known(s) && Placed(s, places) && c in s.owner && (e.Lookup? || e.Scan?)
    ensures PlaceKept(s, e, places, c, w)
  {
    assert IsAt(s, c, places[c]) && (IsAt(s, c, w) ==> w == places[c]);
  }

  lemma ReapPlaces(s: State, t: nat, places: map<Cid, Where>, c: Cid, w: Where)
    requires Enabled(s, ReapNext(t)) && Known(s) && Placed(s, places) && c in s.owner
    ensures PlaceKept(s, ReapNext(t), places, c, w)
  {
    var rest := s.threads[t].rest;
    assert IsAt(s, c, places[c]) && (IsAt(s, c, w) ==> w == places[c]);
    if rest != [] { PopPlaces(s, t, rest[0], rest[1..], places, c, w); }
  }

  lemma StepPlaces(s: State, e: Event, places: map<Cid, Where>, c: Cid, w: Where)
    requires Enabled(s, e) && Known(s) && Placed(s, places) && c in Next(s, e).owner
    ensures PlaceKept(s, e, places, c, w)
  {
    hide Known, Placed, PlaceKept;
    match e
    case Create(t, cid) => CreatePlaces(s, t, cid, places, c, w);
    case Insert(t, alive) =>
      if s.threads[t].run in s.pool && alive {
        InsertRacedPlaces(s, t, alive, places, c, w);
      } else {
        InsertPooledPlaces(s, t, alive, places, c, w);
      }
    case Pop(t, run) => PopKept(s, t, run, places, c, w);
    case ReapNext(t) => ReapPlaces(s, t, places, c, w);
    case Destroy(t) => DestroyPlaces(s, t, places, c, w);
    case Lookup(_, _, _) => QuietPlaces(s, e, places, c, w);
    case Scan(_, _) => QuietPlaces(s, e, places, c, w);
  }

  lemma PopKept(s: State, t: nat, run: string, places: map<Cid, Where>, c: Cid, w: Where)
    requires Enabled(s, Pop(t, run)) && Known(s) && Placed(s, places) && c in s.owner
    ensures PlaceKept(s, Pop(t, run), places, c, w)
  {
    assert IsAt(s, c, places[c]);
    PopPlaces(s, t, run, [], places, c, w);
  }

  lemma {:induction false} StepKeeps(s: State, e: Event, places: map<Cid, Where>)
    requires Enabled(s, e) && Known(s) && Placed(s, places)
    ensures Known(Next(s, e)) && Placed(Next(s, e), Moved(s, places, e))
  {
    KnownKept(s, e);
    MovedKeys(s, e, places);
    hide Known, IsAt, Next, Moved;
    forall c, w | c in Next(s, e).owner
      ensures IsAt(Next(s, e), c, w) <==> w == Moved(s, places, e)[c]
    {
      StepPlaces(s, e, places, c, w);
    }
  }

  lemma MovedKeys(s: State, e: Event, places: map<Cid, Where>)
    requires Enabled(s, e) && Known(s) && places.Keys == s.owner.Keys
    ensures Moved(s, places, e).Keys == Next(s, e).owner.Keys
  {
  }

  lemma KnownKept(s: State, e: Event)
    requires Enabled(s, e) && Known(s)
    ensures Known(Next(s, e))
  {
  }

  lemma {:induction false} RunPlaced(s0: State, events: seq<Event>) returns (places: map<Cid, Where>)
    requires Initial(s0) && Run(s0, events).Some?
    ensures Known(Run(s0, events).value) && Placed(Run(s0, events).value, places)
  {
    if events == [] {
      places := map[];
    } else {
      var before, last := events[..|events| - 1], events[|events| - 1];
      var places0 := RunPlaced(s0, before);
      var p := Run(s0, before).value;
      StepKeeps(p, last, places0);
      places := Moved(p, places0, last);
    }
  }

  // ------------------------------------------------------------- main results

  /** In every interleaving, each container created is at exactly one place: held
      by one thread between creation and insertion, pooled under its run, being
      destroyed by one thread, destroyed, or replaced after it was reported dead. */
  lemma {:induction false} OnePlaceEach(s0: State, events: seq<Event>, s: State, c: Cid)
    requires Initial(s0) && Run(s0, events) == Some(s) && c in s.owner
    ensures exists w :: IsAt(s, c, w) && forall w' :: IsAt(s, c, w') ==> w' == w
    ensures IsAt(s, c, Replaced) ==> c in s.dead
  {
    var places := RunPlaced(s0, events);
    assert IsAt(s, c, places[c]);
  }

  /** When no thread is under way, a container is pooled under the run it was
      created for, or destroyed, and not both, unless it was replaced after it was
      reported dead: none other is lost. */
  lemma {:induction false} NoneLost(s0: State, events: seq<Event>, s: State, c: Cid)
    requires Initial(s0) && Run(s0, events) == Some(s) && c in s.owner
    requires forall t :: t in s.threads ==> s.threads[t] == Idle
    ensures IsAt(s, c, Pooled) || IsAt(s, c, Gone) <==> c !in s.replaced
    ensures !(IsAt(s, c, Pooled) && IsAt(s, c, Gone)) && (c in s.replaced ==> c in s.dead)
  {
    var places := RunPlaced(s0, events);
    assert IsAt(s, c, places[c]);
    assert IsAt(s, c, Pooled) ==> places[c] == Pooled;
    assert IsAt(s, c, Gone) ==> places[c] == Gone;
    assert IsAt(s, c, Replaced) ==> places[c] == Replaced;
  }

  /** What one step gives out: only a look-up or an insertion does, for its own run;
      the container is then pooled for that run, and was created for it; and one that
      was there before has just been reported alive. */
  lemma {:induction false} GivenOut(s: State, e: Event, x: Returned)
    requires Known(s) && Enabled(s, e) && x in Next(s, e).returned && x !in s.returned
    ensures (e.Lookup? && x.run == e.run) || (e.Insert? && x.run == s.threads[e.t].run)
    ensures x.run in Next(s, e).pool && Next(s, e).pool[x.run] == x.cid
    ensures x.cid in s.owner && s.owner[x.cid] == x.run
    ensures e.Lookup? ==> e.alive && x.run in s.pool
    ensures e.Insert? ==> if x.run in s.pool && e.alive then x.cid == s.pool[x.run] else x.cid == s.threads[e.t].cid
  {
  }

  /** A thread that lost the race destroys its own container; destroying a run, by
      request or for idleness, destroys the container pooled for it and no other. */
  lemma {:induction false} Destroyed(s: State, e: Event, c: Cid)
    requires Enabled(s, e) && c in Next(s, e).destroyed && c !in s.destroyed
    ensures (e.Insert? && c == s.threads[e.t].cid && s.threads[e.t].run in s.pool && e.alive)
            || (e.Destroy? && c == s.threads[e.t].cid)
  {
  }

  lemma {:induction false} Popped(s: State, e: Event, run: string)
    requires Enabled(s, e) && run in s.pool && run !in Next(s, e).pool
    ensures Next(s, e).threads[e.t].Destroying? && Next(s, e).threads[e.t].cid == s.pool[run]
    ensures (e.Pop? && e.run == run) || (e.ReapNext? && s.threads[e.t].rest != [] && s.threads[e.t].rest[0] == run)
    ensures forall other :: other in s.pool && other != run ==> other in Next(s, e).pool && Next(s, e).pool[other] == s.pool[other]
  {
  }

  /** Over any run, whatever a call for a run was given had been created for that run. */
  lemma {:induction false} ReturnedIsOwned(s0: State, events: seq<Event>, s: State, x: Returned)
    requires Initial(s0) && Run(s0, events) == Some(s) && x in s.returned
    ensures x.cid in s.owner && s.owner[x.cid] == x.run
  {
    if events != [] {
      var before, last := events[..|events| - 1], events[|events| - 1];
      var p := Run(s0, before).value;
      var places := RunPlaced(s0, before);
      if x in p.returned { ReturnedIsOwned(s0, before, p, x); } else { GivenOut(p, last, x); }
      OwnersStay(p, last, x.cid);
    }
  }

  lemma OwnersStay(s: State, e: Event, c: Cid)
    requires Enabled(s, e) && c in s.owner
    ensures c in Next(s, e).owner && Next(s, e).owner[c] == s.owner[c]
  {
  }

  /** Nothing is destroyed on request and every liveness check says yes. */
  predicate Calm(e: Event) {
    match e
    case Lookup(_, _, alive) => alive
    case Insert(_, alive) => alive
    case Create(_, _) => true
    case _ => false
  }

  lemma {:induction false} ReturnedIsPooled(s0: State, events: seq<Event>, s: State)
    requires Initial(s0) && Run(s0, events) == Some(s) && forall i :: 0 <= i < |events| ==> Calm(events[i])
    ensures forall x :: x in s.returned ==> x.run in s.pool && s.pool[x.run] == x.cid
  {
    if events != [] {
      var before := events[..|events| - 1];
      var p := Run(s0, before).value;
      assert forall i :: 0 <= i < |before| ==> before[i] == events[i];
      ReturnedIsPooled(s0, before, p);
    }
  }

  /** Without destroys and dead reports, all calls for one run get the same
      sandbox, however many threads raced to create it. */
  lemma {:induction false} SameSandbox(s0: State, events: seq<Event>, s: State, x: Returned, y: Returned)
    requires Initial(s0) && Run(s0, events) == Some(s) && forall i :: 0 <= i < |events| ==> Calm(events[i])
    requires x in s.returned && y in s.returned && x.run == y.run
    ensures x.cid == y.cid
  {
    ReturnedIsPooled(s0, events, s);
  }
}
