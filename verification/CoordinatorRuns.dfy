// What every run of the coordinator keeps: its books, its revocations, its ledger, and one dispatch per window.
module CoordinatorRuns {
  import opened Prelude
  import opened Orders
  import opened Tiles
  import opened LayerAssignment
  import opened Coordinator
  import opened PipelineExits
  import LeastConnections
  import KhipuLedger
  import Relay

  datatype Event =
    | Join(hw: Hardware, start: int, end: int, now: real)
    | Heartbeat(nodeId: string, token: string, now: real, seenAt: real)
    | EvictStale(now: real)
    | Revoke(nodeId: string)
    | Complete(nodeId: string)
    | Submit(q: Request, generated: string, reading: Reading)

  /** A joining node gets the layers that the allocator gives it; everything else can happen at any time. */
  ghost predicate Possible(s: State, e: Event)
    requires Sound(s)
  {
    e.Join? ==> Allotted(s, e.hw, e.start, e.end)
  }

  ghost function Step(env: Environment, s: State, e: Event): (s': State)
    requires Sound(s) && Possible(s, e)
    ensures Sound(s')
  {
    match e
    case Join(hw, start, end, now) => JoinKeepsSound(env, s, hw, start, end, now); Joined(env, s, hw, start, end, now)
    case Heartbeat(nodeId, token, now, seenAt) => Heard(env, s, nodeId, token, now, seenAt)
    case EvictStale(now) => Evicted(s, now)
    case Revoke(nodeId) => NodeRevoked(s, nodeId)
    case Complete(nodeId) => Completed(s, nodeId)
    case Submit(q, generated, r) => DispatchKeepsSound(env, s, q, generated, r); Dispatch(env, s, q, generated, r).0
  }

  ghost predicate Legal(env: Environment, s: State, events: seq<Event>)
    requires Sound(s)
    decreases |events|
  {
    events != [] ==> Possible(s, events[0]) && Legal(env, Step(env, s, events[0]), events[1..])
  }

  ghost function After(env: Environment, s: State, events: seq<Event>): (s': State)
    requires Sound(s) && Legal(env, s, events)
    ensures Sound(s')
    decreases |events|
  {
    if events == [] then s else After(env, Step(env, s, events[0]), events[1..])
  }

  // ---- a pipeline is the run of its dispatches ----

  function StageEvents(q: Request, base: string, clock: Readings, from: nat, to: nat): seq<Event>
    decreases if from < to then to - from else 0
  {
    if from >= to then []
    else [Submit(StageRequest(q, base, from + 1), "", clock(from))] + StageEvents(q, base, clock, from + 1, to)
  }

  /** The state t and the result r are those of the run of the stages' dispatches from `step` on. */
  ghost predicate RunOfStages(env: Environment, s: State, q: Request, base: string, clock: Readings, step: nat,
                              t: State, r: PipelineResult)
    requires Sound(s)
  {
    var events := StageEvents(q, base, clock, step, r.steps);
    step <= r.steps && Legal(env, s, events) && t == After(env, s, events)
  }

  /** A pipeline is the run of its dispatches. */
  lemma {:induction false} PipelineIsRun(env: Environment, s: State, q: Request, base: string, budget: nat, stages: nat,
                                         covered: bool, clock: Readings, step: nat, results: seq<Outcome>)
    requires Sound(s) && step <= stages
    ensures
      var (s', r) := Walk(env, s, q, base, budget, stages, covered, clock, step, results);
      RunOfStages(env, s, q, base, clock, step, s', r)
    decreases stages - step
  {
    if step < stages && step < budget {
      var d := Dispatch(env, s, StageRequest(q, base, step + 1), "", clock(step));
      DispatchKeepsSound(env, s, StageRequest(q, base, step + 1), "", clock(step));
      var (s', r) := Walk(env, s, q, base, budget, stages, covered, clock, step, results);
      if d.1.Dispatched? {
        PipelineIsRun(env, d.0, q, base, budget, stages, covered, clock, step + 1, results + [d.1]);
        WalkGoesOn(env, s, q, base, budget, stages, covered, clock, step, results, d.0, d.1);
        StageThenRun(env, s, q, base, clock, step, d.0, s', r);
      } else {
        assert RunOfStages(env, d.0, q, base, clock, step + 1, s', r);
        StageThenRun(env, s, q, base, clock, step, d.0, s', r);
      }
    }
  }

  lemma StageThenRun(env: Environment, s: State, q: Request, base: string, clock: Readings, step: nat, t: State,
                     s': State, r: PipelineResult)
    requires Sound(s) && Sound(t) && t == Dispatch(env, s, StageRequest(q, base, step + 1), "", clock(step)).0
    requires RunOfStages(env, t, q, base, clock, step + 1, s', r)
    ensures RunOfStages(env, s, q, base, clock, step, s', r)
  {
    RunCons(env, s, Submit(StageRequest(q, base, step + 1), "", clock(step)),
      StageEvents(q, base, clock, step + 1, r.steps));
  }

  lemma RunCons(env: Environment, s: State, e: Event, rest: seq<Event>)
    requires Sound(s) && Possible(s, e) && Legal(env, Step(env, s, e), rest)
    ensures Legal(env, s, [e] + rest) && After(env, s, [e] + rest) == After(env, Step(env, s, e), rest)
  {
    assert ([e] + rest)[1..] == rest;
  }

  // ---- conservation ----

  function Jobs(s: State): map<string, int> { map n | n in s.tiles :: s.tiles[n].totalJobs }

  /** All jobs ever given to the nodes on file. */
  ghost function TotalJobs(s: State): int { LeastConnections.Sum(s.tiles.Keys, Jobs(s)) }

  ghost function Credits(s: State, group: set<string>): real
    requires group <= s.tiles.Keys
  {
    if group == {} then 0.0
    else
      var n :| n in group;
      s.tiles[n].contribution + Credits(s, group - {n})
  }

  /** A node's open connections are among its jobs, and its credit is one for each job. */
  ghost predicate NodeBooks(s: State, n: string)
    requires n in s.tiles && n in s.connections
  {
    0 <= s.connections[n] <= s.tiles[n].totalJobs && s.tiles[n].contribution == s.tiles[n].totalJobs as real
  }

  ghost predicate AllNodeBooks(s: State)
    requires Sound(s)
  {
    forall n :: n in s.tiles ==> NodeBooks(s, n)
  }

  /** In books that balance, the credits of all nodes add up to the number of receipts. */
  lemma {:induction false} CreditsAreJobs(s: State, group: set<string>)
    requires Sound(s) && group <= s.tiles.Keys && forall n :: n in group ==> NodeBooks(s, n)
    ensures Credits(s, group) == LeastConnections.Sum(group, Jobs(s)) as real
    decreases |group|
  {
    if group != {} {
      var n :| n in group && Credits(s, group) == s.tiles[n].contribution + Credits(s, group - {n});
      CreditsAreJobs(s, group - {n});
      LeastConnections.SumWithout(group, Jobs(s), n);
      assert NodeBooks(s, n);
    }
  }

  lemma SameJobsSameTotal(s: State, t: State)
    requires s.tiles.Keys == t.tiles.Keys && forall n :: n in s.tiles ==> s.tiles[n].totalJobs == t.tiles[n].totalJobs
    ensures TotalJobs(s) == TotalJobs(t)
  {
    assert Jobs(s) == Jobs(t);
  }

  lemma TotalAfterTile(s: State, t: State, n: string)
    requires n in t.tiles && t.tiles == s.tiles[n := t.tiles[n]]
    ensures TotalJobs(t) == TotalJobs(s) - (if n in s.tiles then s.tiles[n].totalJobs else 0) + t.tiles[n].totalJobs
  {
    var rest := s.tiles.Keys - {n};
    assert t.tiles.Keys == rest + {n} && t.tiles.Keys - {n} == rest;
    LeastConnections.SumAgrees(rest, Jobs(s), Jobs(t));
    LeastConnections.SumWithout(t.tiles.Keys, Jobs(t), n);
    if n in s.tiles { LeastConnections.SumWithout(s.tiles.Keys, Jobs(s), n); } else { assert s.tiles.Keys == rest; }
  }

  // ---- what each node's own books keep ----

  lemma JoinKeepsNodeBooks(env: Environment, s: State, e: Event)
    requires Sound(s) && AllNodeBooks(s) && e.Join? && Possible(s, e)
    ensures AllNodeBooks(Step(env, s, e))
  {
    var id, t := env.nodeIdOf(e.hw), Step(env, s, e);
    forall n | n in t.tiles ensures NodeBooks(t, n) {
      assert n != id ==> NodeBooks(s, n);
    }
  }

  ghost predicate SameCounters(s: State, t: State)
  {
    && s.tiles.Keys == t.tiles.Keys && s.connections == t.connections && s.chain == t.chain
    && forall n :: n in s.tiles ==>
        s.tiles[n].totalJobs == t.tiles[n].totalJobs && s.tiles[n].contribution == t.tiles[n].contribution
  }

  /** Heartbeats, evictions and revocations change no counters. */
  lemma QuietKeepsCounters(env: Environment, s: State, e: Event)
    requires Sound(s) && (e.Heartbeat? || e.EvictStale? || e.Revoke?)
    ensures SameCounters(s, Step(env, s, e))
  {
    match e
    case Heartbeat(nodeId, token, now, seenAt) => assert SameCounters(s, Heard(env, s, nodeId, token, now, seenAt));
    case EvictStale(now) => assert SameCounters(s, Evicted(s, now));
    case Revoke(nodeId) => assert SameCounters(s, NodeRevoked(s, nodeId));
  }

  lemma CountersKeepNodeBooks(s: State, t: State)
    requires Sound(s) && AllNodeBooks(s) && Sound(t) && SameCounters(s, t)
    ensures AllNodeBooks(t)
  {
    forall n | n in t.tiles ensures NodeBooks(t, n) { assert NodeBooks(s, n); }
  }

  lemma CompletionKeepsNodeBooks(s: State, nodeId: string)
    requires Sound(s) && AllNodeBooks(s)
    ensures AllNodeBooks(Completed(s, nodeId))
  {
    var t := Completed(s, nodeId);
    forall n | n in t.tiles ensures NodeBooks(t, n) { assert NodeBooks(s, n); }
  }

  lemma ServingKeepsNodeBooks(env: Environment, s: State, nodeId: string, entry: KhipuLedger.Entry)
    requires Sound(s) && AllNodeBooks(s) && nodeId in s.tiles
    ensures Sound(Served(env, s, nodeId, entry)) && AllNodeBooks(Served(env, s, nodeId, entry))
  {
    var t := Served(env, s, nodeId, entry);
    ServedKeepsSound(env, s, nodeId, entry);
    forall n | n in t.tiles ensures NodeBooks(t, n) { assert NodeBooks(s, n); }
  }

  lemma SubmissionKeepsNodeBooks(env: Environment, s: State, q: Request, generated: string, r: Reading)
    requires Sound(s) && AllNodeBooks(s)
    ensures Sound(Dispatch(env, s, q, generated, r).0) && AllNodeBooks(Dispatch(env, s, q, generated, r).0)
  {
    var o := Dispatch(env, s, q, generated, r).1;
    var s1 := s.(seen := Relay.Record(s.seen, Relay.TTL_SECONDS, CallOf(q, generated, r)));
    DispatchServes(env, s, q, generated, r);
    CountersKeepNodeBooks(s, s1);
    if o.Dispatched? { ServingKeepsNodeBooks(env, s1, o.nodeId, o.entry); }
  }

  /** No event whatever puts a node's own books out of order. */
  lemma StepKeepsNodeBooks(env: Environment, s: State, e: Event)
    requires Sound(s) && AllNodeBooks(s) && Possible(s, e)
    ensures AllNodeBooks(Step(env, s, e))
  {
    match e
    case Join(_, _, _, _) => JoinKeepsNodeBooks(env, s, e);
    case Complete(nodeId) => CompletionKeepsNodeBooks(s, nodeId);
    case Submit(q, generated, r) => SubmissionKeepsNodeBooks(env, s, q, generated, r);
    case _ =>
      QuietKeepsCounters(env, s, e);
      CountersKeepNodeBooks(s, Step(env, s, e));
  }

  // ---- receipts against jobs ----

  /** The jobs that a join wipes from the record: those of the tile it replaces. */
  function WipedBy(env: Environment, s: State, e: Event): int
  {
    if e.Join? && env.nodeIdOf(e.hw) in s.tiles then s.tiles[env.nodeIdOf(e.hw)].totalJobs else 0
  }

  ghost function Wiped(env: Environment, s: State, events: seq<Event>): int
    requires Sound(s) && Legal(env, s, events)
    decreases |events|
  {
    if events == [] then 0 else WipedBy(env, s, events[0]) + Wiped(env, Step(env, s, events[0]), events[1..])
  }

  lemma SubmissionCounts(env: Environment, s: State, q: Request, generated: string, r: Reading)
    requires Sound(s)
    ensures
      var t := Dispatch(env, s, q, generated, r).0;
      |t.chain| - TotalJobs(t) == |s.chain| - TotalJobs(s)
  {
    var (t, o) := Dispatch(env, s, q, generated, r);
    DispatchServes(env, s, q, generated, r);
    if o.Dispatched? { TotalAfterTile(s, t, o.nodeId); } else { SameJobsSameTotal(s, t); }
  }

  /** Receipts less jobs on record grow by exactly what an event wipes. */
  lemma StepCounts(env: Environment, s: State, e: Event)
    requires Sound(s) && Possible(s, e)
    ensures
      var t := Step(env, s, e);
      |t.chain| - TotalJobs(t) == |s.chain| - TotalJobs(s) + WipedBy(env, s, e)
  {
    match e
    case Join(_, _, _, _) => TotalAfterTile(s, Step(env, s, e), env.nodeIdOf(e.hw));
    case Complete(nodeId) => SameJobsSameTotal(s, Completed(s, nodeId));
    case Submit(q, generated, r) => SubmissionCounts(env, s, q, generated, r);
    case _ =>
      QuietKeepsCounters(env, s, e);
      SameJobsSameTotal(s, Step(env, s, e));
  }

  /** A join keeps receipts and jobs equal exactly when the node is new or has done no job. */
  lemma JoinKeepsBooksIff(env: Environment, s: State, e: Event)
    requires Sound(s) && |s.chain| == TotalJobs(s) && e.Join? && Possible(s, e)
    ensures
      var id, t := env.nodeIdOf(e.hw), Step(env, s, e);
      |t.chain| == TotalJobs(t) <==> id !in s.tiles || s.tiles[id].totalJobs == 0
  {
    StepCounts(env, s, e);
  }

  // ---- revocation ----

  /** No revoked node is up. */
  ghost predicate RevokedDown(s: State)
  {
    forall n :: n in s.revoked && n in s.tiles ==> s.tiles[n].status == DOWN
  }

  /** A join keeps revoked nodes down exactly when the joining node is not revoked. */
  lemma JoinKeepsRevokedDownIff(env: Environment, s: State, e: Event)
    requires Sound(s) && RevokedDown(s) && e.Join? && Possible(s, e)
    ensures RevokedDown(Step(env, s, e)) <==> env.nodeIdOf(e.hw) !in s.revoked
  {
  }

  lemma DispatchKeepsRevokedDown(env: Environment, s: State, q: Request, generated: string, r: Reading)
    requires Sound(s) && RevokedDown(s)
    ensures RevokedDown(Dispatch(env, s, q, generated, r).0)
  {
    DispatchServes(env, s, q, generated, r);
  }

  lemma StepKeepsRevokedDown(env: Environment, s: State, e: Event)
    requires Sound(s) && RevokedDown(s) && Possible(s, e) && !e.Join?
    ensures RevokedDown(Step(env, s, e))
  {
    match e
    case Submit(q, generated, r) => DispatchKeepsRevokedDown(env, s, q, generated, r);
    case _ =>
  }

  // ---- the ledger ----

  ghost predicate LedgerIntact(env: Environment, s: State) { KhipuLedger.Intact(env.ledger, s.chain) }

  lemma StepKeepsLedger(env: Environment, s: State, e: Event)
    requires Sound(s) && LedgerIntact(env, s) && Possible(s, e)
    ensures LedgerIntact(env, Step(env, s, e)) && s.chain <= Step(env, s, e).chain
  {
    if e.Submit? {
      DispatchServes(env, s, e.q, e.generated, e.reading);
      var id := RequestId(e.q, e.generated);
      KhipuLedger.AppendIntact(env.ledger, env.secret, s.chain, ReceiptBody(e.q, id, |s.chain|, e.reading.text));
    }
  }

  // ---- over runs ----

  lemma {:induction false} RunKeepsNodeBooks(env: Environment, s: State, events: seq<Event>)
    requires Sound(s) && AllNodeBooks(s) && Legal(env, s, events)
    ensures AllNodeBooks(After(env, s, events))
    decreases |events|
  {
    if events != [] {
      StepKeepsNodeBooks(env, s, events[0]);
      RunKeepsNodeBooks(env, Step(env, s, events[0]), events[1..]);
    }
  }

  lemma {:induction false} RunCounts(env: Environment, s: State, events: seq<Event>)
    requires Sound(s) && Legal(env, s, events)
    ensures
      var t := After(env, s, events);
      |t.chain| - TotalJobs(t) == |s.chain| - TotalJobs(s) + Wiped(env, s, events)
    decreases |events|
  {
    if events != [] {
      StepCounts(env, s, events[0]);
      RunCounts(env, Step(env, s, events[0]), events[1..]);
    }
  }

  lemma {:induction false} RunKeepsLedger(env: Environment, s: State, events: seq<Event>)
    requires Sound(s) && LedgerIntact(env, s) && Legal(env, s, events)
    ensures LedgerIntact(env, After(env, s, events))
    decreases |events|
  {
    if events != [] {
      StepKeepsLedger(env, s, events[0]);
      RunKeepsLedger(env, Step(env, s, events[0]), events[1..]);
    }
  }

  lemma NothingYet(totalLayers: int)
    ensures Sound(Initial(totalLayers)) && AllNodeBooks(Initial(totalLayers)) && TotalJobs(Initial(totalLayers)) == 0
  {
  }

  /** From an empty coordinator, however joins, heartbeats, evictions, revocations, completions and dispatches
      interleave: there are as many receipts as jobs on record and jobs wiped by joins, the credits add up to the jobs,
      no node has more open connections than jobs, and the ledger verifies. */
  lemma Conservation(env: Environment, totalLayers: int, events: seq<Event>)
    requires Legal(env, Initial(totalLayers), events)
    ensures
      var s := After(env, Initial(totalLayers), events);
      && |s.chain| == TotalJobs(s) + Wiped(env, Initial(totalLayers), events)
      && Credits(s, s.tiles.Keys) == TotalJobs(s) as real
      && (forall n :: n in s.tiles ==> 0 <= s.connections[n] <= s.tiles[n].totalJobs)
      && LedgerIntact(env, s)
  {
    NothingYet(totalLayers);
    RunKeepsNodeBooks(env, Initial(totalLayers), events);
    RunCounts(env, Initial(totalLayers), events);
    RunKeepsLedger(env, Initial(totalLayers), events);
    BooksAddUp(After(env, Initial(totalLayers), events));
  }

  lemma BooksAddUp(s: State)
    requires Sound(s) && AllNodeBooks(s)
    ensures Credits(s, s.tiles.Keys) == TotalJobs(s) as real
    ensures forall n :: n in s.tiles ==> 0 <= s.connections[n] <= s.tiles[n].totalJobs
  {
    CreditsAreJobs(s, s.tiles.Keys);
    forall n | n in s.tiles ensures 0 <= s.connections[n] <= s.tiles[n].totalJobs { assert NodeBooks(s, n); }
  }

  /** No join of the run replaces a tile that has done jobs. */
  ghost predicate NoJobsWiped(env: Environment, s: State, events: seq<Event>)
    requires Sound(s) && Legal(env, s, events)
    decreases |events|
  {
    events != [] ==> WipedBy(env, s, events[0]) == 0 && NoJobsWiped(env, Step(env, s, events[0]), events[1..])
  }

  lemma {:induction false} WipedIff(env: Environment, s: State, events: seq<Event>)
    requires Sound(s) && AllNodeBooks(s) && Legal(env, s, events)
    ensures Wiped(env, s, events) >= 0 && (Wiped(env, s, events) == 0 <==> NoJobsWiped(env, s, events))
    decreases |events|
  {
    if events != [] {
      var e := events[0];
      assert e.Join? && env.nodeIdOf(e.hw) in s.tiles ==> NodeBooks(s, env.nodeIdOf(e.hw));
      StepKeepsNodeBooks(env, s, e);
      WipedIff(env, Step(env, s, e), events[1..]);
    }
  }

  /** After a run there are as many receipts as jobs and credits on record exactly when no join wiped out jobs. */
  lemma BalancedIff(env: Environment, totalLayers: int, events: seq<Event>)
    requires Legal(env, Initial(totalLayers), events)
    ensures
      var s := After(env, Initial(totalLayers), events);
      && (|s.chain| == TotalJobs(s) <==> NoJobsWiped(env, Initial(totalLayers), events))
      && (|s.chain| as real == Credits(s, s.tiles.Keys) <==> NoJobsWiped(env, Initial(totalLayers), events))
  {
    NothingYet(totalLayers);
    Conservation(env, totalLayers, events);
    WipedIff(env, Initial(totalLayers), events);
  }

  /** No join of the run is by a node revoked before. */
  ghost predicate NoRevokedJoins(env: Environment, s: State, events: seq<Event>)
    requires Sound(s) && Legal(env, s, events)
    decreases |events|
  {
    events != [] ==>
      && (events[0].Join? ==> env.nodeIdOf(events[0].hw) !in s.revoked)
      && NoRevokedJoins(env, Step(env, s, events[0]), events[1..])
  }

  /** Revoked nodes are down after every event of the run. */
  ghost predicate AlwaysRevokedDown(env: Environment, s: State, events: seq<Event>)
    requires Sound(s) && Legal(env, s, events)
    decreases |events|
  {
    RevokedDown(s) && (events != [] ==> AlwaysRevokedDown(env, Step(env, s, events[0]), events[1..]))
  }

  /** Throughout a run revoked nodes are down exactly when none of them joins again. */
  lemma {:induction false} AlwaysRevokedDownIff(env: Environment, s: State, events: seq<Event>)
    requires Sound(s) && RevokedDown(s) && Legal(env, s, events)
    ensures AlwaysRevokedDown(env, s, events) <==> NoRevokedJoins(env, s, events)
    decreases |events|
  {
    if events != [] {
      var e, t := events[0], Step(env, s, events[0]);
      if e.Join? { JoinKeepsRevokedDownIff(env, s, e); } else { StepKeepsRevokedDown(env, s, e); }
      if RevokedDown(t) {
        AlwaysRevokedDownIff(env, t, events[1..]);
      } else {
        assert !AlwaysRevokedDown(env, t, events[1..]);
      }
    }
  }

  lemma StepGrows(env: Environment, s: State, e: Event)
    requires Sound(s) && Possible(s, e)
    ensures s.revoked <= Step(env, s, e).revoked && s.chain <= Step(env, s, e).chain
  {
    match e
    case Submit(q, generated, r) => DispatchServes(env, s, q, generated, r);
    case _ =>
  }

  lemma {:induction false} RunGrows(env: Environment, s: State, events: seq<Event>)
    requires Sound(s) && Legal(env, s, events)
    ensures s.revoked <= After(env, s, events).revoked && s.chain <= After(env, s, events).chain
    decreases |events|
  {
    if events != [] {
      StepGrows(env, s, events[0]);
      RunGrows(env, Step(env, s, events[0]), events[1..]);
    }
  }

  lemma {:induction false} LegalSplits(env: Environment, s: State, a: seq<Event>, b: seq<Event>)
    requires Sound(s) && Legal(env, s, a + b)
    ensures Legal(env, s, a) && Legal(env, After(env, s, a), b)
      && After(env, s, a + b) == After(env, After(env, s, a), b)
    decreases |a|
  {
    if a == [] {
      assert a + b == b;
    } else {
      assert (a + b)[1..] == a[1..] + b;
      LegalSplits(env, Step(env, s, a[0]), a[1..], b);
    }
  }

  /** The node is revoked, and down if it is on file. */
  ghost predicate OutOfUse(s: State, nodeId: string)
  {
    nodeId in s.revoked && (nodeId in s.tiles ==> s.tiles[nodeId].status == DOWN)
  }

  lemma DispatchKeepsOutOfUse(env: Environment, s: State, nodeId: string, q: Request, generated: string, r: Reading)
    requires Sound(s) && OutOfUse(s, nodeId)
    ensures OutOfUse(Dispatch(env, s, q, generated, r).0, nodeId)
    ensures var o := Dispatch(env, s, q, generated, r).1; o.Dispatched? ==> o.nodeId != nodeId
  {
    DispatchServes(env, s, q, generated, r);
  }

  lemma StepKeepsOutOfUse(env: Environment, s: State, e: Event, nodeId: string)
    requires Sound(s) && OutOfUse(s, nodeId) && Possible(s, e) && (e.Join? ==> env.nodeIdOf(e.hw) != nodeId)
    ensures OutOfUse(Step(env, s, e), nodeId)
  {
    match e
    case Submit(q, generated, r) => DispatchKeepsOutOfUse(env, s, nodeId, q, generated, r);
    case _ =>
  }

  lemma {:induction false} RunKeepsOutOfUse(env: Environment, s: State, events: seq<Event>, nodeId: string)
    requires Sound(s) && OutOfUse(s, nodeId) && Legal(env, s, events)
    requires forall i :: 0 <= i < |events| && events[i].Join? ==> env.nodeIdOf(events[i].hw) != nodeId
    ensures OutOfUse(After(env, s, events), nodeId)
    decreases |events|
  {
    if events != [] {
      StepKeepsOutOfUse(env, s, events[0], nodeId);
      RunKeepsOutOfUse(env, Step(env, s, events[0]), events[1..], nodeId);
    }
  }

  /** A revocation takes the node out of use. */
  lemma RevokeTakesOut(s: State, nodeId: string)
    ensures OutOfUse(NodeRevoked(s, nodeId), nodeId)
  {
  }

  /** And it is then not selected again until it joins again, whatever else happens. */
  lemma RevokedNeverSelected(env: Environment, s: State, nodeId: string, events: seq<Event>, q: Request,
                             generated: string, r: Reading)
    requires Sound(s) && OutOfUse(s, nodeId) && Legal(env, s, events)
    requires forall i :: 0 <= i < |events| && events[i].Join? ==> env.nodeIdOf(events[i].hw) != nodeId
    ensures var o := Dispatch(env, After(env, s, events), q, generated, r).1; o.Dispatched? ==> o.nodeId != nodeId
  {
    RunKeepsOutOfUse(env, s, events, nodeId);
    DispatchKeepsOutOfUse(env, After(env, s, events), nodeId, q, generated, r);
  }

  /** Two coordinators, whatever their runs, whose ledgers end in the same hash hold the same receipts in the same
      order; otherwise two of the strings they hashed collide. */
  lemma SameHeadSameReceipts(env: Environment, a: State, events: seq<Event>, b: State, events': seq<Event>)
    requires Sound(a) && LedgerIntact(env, a) && Legal(env, a, events) && Sound(b) && LedgerIntact(env, b)
      && Legal(env, b, events')
    requires KhipuLedger.Encodings(env.ledger)
    requires
      var x, y := After(env, a, events).chain, After(env, b, events').chain;
      x != [] && y != [] && KhipuLedger.TellsApart(env.ledger, x, y) && KhipuLedger.Head(x) == KhipuLedger.Head(y)
    ensures
      var x, y := After(env, a, events).chain, After(env, b, events').chain;
      KhipuLedger.Bodies(x) == KhipuLedger.Bodies(y) || KhipuLedger.Collision(env.ledger, x, y)
  {
    RunKeepsLedger(env, a, events);
    RunKeepsLedger(env, b, events');
    KhipuLedger.TamperEvidence(env.ledger, After(env, a, events).chain, After(env, b, events').chain);
  }
}
