// Every exit of the bounded pipeline loop (MeshCoordinator.run_pipeline), characterised from the state it starts in.
module PipelineExits {
  import opened Prelude
  import opened Orders
  import opened Tiles
  import opened LayerAssignment
  import opened Coordinator
  import LeastConnections
  import KhipuLedger
  import PipelinePlan
  import Relay
  import Decimal

  ghost predicate AnyUp(s: State) { exists n :: n in s.tiles && s.tiles[n].status == UP }

  /** A dispatch changes no tile's place, layers or status. */
  ghost predicate SameFormation(s: State, t: State)
  {
    && s.tiles.Keys == t.tiles.Keys && s.order == t.order
    && (forall n :: n in s.tiles ==> SameTile(s.tiles[n], t.tiles[n]))
  }

  ghost predicate SameTile(a: NodeTile, b: NodeTile)
  {
    a.nodeId == b.nodeId && a.status == b.status && a.layerStart == b.layerStart && a.layerEnd == b.layerEnd
  }

  function CallOf(q: Request, generated: string, r: Reading): Relay.Call
  {
    Relay.Call(RequestId(q, generated), r.now, r.stamp)
  }

  /** A dispatch that reaches a node is a Served step after the relay took note of the request. */
  lemma DispatchServes(env: Environment, s: State, q: Request, generated: string, r: Reading)
    requires Sound(s)
    ensures
      var (s', o) := Dispatch(env, s, q, generated, r);
      var s1 := s.(seen := Relay.Record(s.seen, Relay.TTL_SECONDS, CallOf(q, generated, r)));
      if o.Dispatched? then
        && o.nodeId in s.tiles && s.tiles[o.nodeId].status == UP && o.host == HostOf(s.tiles[o.nodeId])
        && (forall n :: n in s.tiles && s.tiles[n].status == UP ==> s.connections[o.nodeId] <= s.connections[n])
        && o.entry == KhipuLedger.NewEntry(env.ledger, env.secret, s.chain,
                                           ReceiptBody(q, RequestId(q, generated), |s.chain|, r.text))
        && s' == Served(env, s1, o.nodeId, o.entry)
      else s' == s1
  {
    PickIsTile(env, s.(seen := Relay.Record(s.seen, Relay.TTL_SECONDS, CallOf(q, generated, r))),
      RequestId(q, generated));
  }

  /** A request is dispatched exactly when the relay has forgotten its id, the gate passes and a node is up; only
      then does the ledger grow, by one receipt for that request. */
  lemma DispatchedIff(env: Environment, s: State, q: Request, generated: string, r: Reading)
    requires Sound(s)
    ensures
      var (s', o), call := Dispatch(env, s, q, generated, r), CallOf(q, generated, r);
      && (o.Dispatched? <==> !Relay.Remembered(s.seen, Relay.TTL_SECONDS, call) && LambdaPasses(q) && AnyUp(s))
      && (o.Dispatched? ==> s'.chain == s.chain + [o.entry] && o.entry.receipt.body.jobId == call.id)
      && (!o.Dispatched? ==> s'.chain == s.chain)
      && s'.seen == Relay.Record(s.seen, Relay.TTL_SECONDS, call)
  {
    var s1 := s.(seen := Relay.Record(s.seen, Relay.TTL_SECONDS, CallOf(q, generated, r)));
    PickIsTile(env, s1, RequestId(q, generated));
  }

  /** The gate's verdict: a request is judged by the score it states, or if that is nothing by having an id and a
      model. */
  lemma GateExact(q: Request)
    ensures LambdaScore(q) ==
      if q.lambdaScore.Some? && q.lambdaScore.value != 0.0 then q.lambdaScore.value
      else if q.requestId != "" && q.model.Some? && q.model.value != "" then 1.0 else 0.0
    ensures LambdaPasses(q) <==> LambdaScore(q) >= 0.5
  {
  }

  /** Which of the four outcomes a dispatch has, in the order of its checks; with no node up every node on file is down,
      and all are named in the order in which they joined. */
  lemma OutcomeExact(env: Environment, s: State, q: Request, generated: string, r: Reading)
    requires Sound(s)
    ensures
      var (o, call) := (Dispatch(env, s, q, generated, r).1, CallOf(q, generated, r));
      var remembered := Relay.Remembered(s.seen, Relay.TTL_SECONDS, call);
      && (o.Duplicate? <==> remembered)
      && (o.Rejected? <==> !remembered && !LambdaPasses(q)) && (o.Rejected? ==> o.score == LambdaScore(q))
      && (o.Degraded? <==> !remembered && LambdaPasses(q) && !AnyUp(s))
      && (o.Degraded? ==> o.score == LambdaScore(q) && o.downNodes == s.order)
  {
    var s1 := s.(seen := Relay.Record(s.seen, Relay.TTL_SECONDS, CallOf(q, generated, r)));
    PickIsTile(env, s1, RequestId(q, generated));
    if !AnyUp(s) { AllDown(s); }
  }

  lemma AllDown(s: State)
    requires Sound(s) && !AnyUp(s)
    ensures TileIds(Filter(IsDown, TileList(s))) == s.order
  {
    var tiles := TileList(s);
    forall i | 0 <= i < |tiles| ensures IsDown(tiles[i]) && tiles[i].nodeId == s.order[i] {
      assert s.order[i] in s.tiles && s.tiles[s.order[i]].status != UP;
    }
    FilterAll(IsDown, tiles);
  }

  lemma {:induction false} FilterAll<T>(p: T -> bool, s: seq<T>)
    requires forall i :: 0 <= i < |s| ==> p(s[i])
    ensures Filter(p, s) == s
  {
    if s != [] {
      FilterAll(p, s[1..]);
      assert s == [s[0]] + s[1..];
    }
  }

  /** What a dispatched request changes, part by part. */
  lemma DispatchedExactly(env: Environment, s: State, q: Request, generated: string, r: Reading, t: State, o: Outcome)
    requires Sound(s) && (t, o) == Dispatch(env, s, q, generated, r) && o.Dispatched?
    ensures o.nodeId in s.tiles && OneMoreJob(s, t, o.nodeId) && Receipts(s, t, o.entry)
  {
    DispatchServes(env, s, q, generated, r);
    var s1 := s.(seen := Relay.Record(s.seen, Relay.TTL_SECONDS, CallOf(q, generated, r)));
    ServedOne(env, s, s1, o.nodeId, o.entry);
    assert t == Served(env, s1, o.nodeId, o.entry);
  }

  /** What it yields: the request's id and score, where it is served, and the routing receipt. */
  lemma DispatchedYields(env: Environment, s: State, q: Request, generated: string, r: Reading, o: Outcome)
    requires Sound(s) && o == Dispatch(env, s, q, generated, r).1 && o.Dispatched?
    ensures o.requestId == (if q.requestId != "" then q.requestId else generated) && o.score == LambdaScore(q)
    ensures o.nodeId in s.tiles && HostsIt(s.tiles[o.nodeId], o.host)
    ensures Routed(o.entry.receipt.body, q, o, |s.chain|, r.text)
  {
    DispatchServes(env, s, q, generated, r);
    DispatchStates(env, s, q, generated, r);
    RoutedBody(q, o, |s.chain|, r.text);
  }

  lemma DispatchStates(env: Environment, s: State, q: Request, generated: string, r: Reading)
    requires Sound(s)
    ensures
      var o := Dispatch(env, s, q, generated, r).1;
      o.Dispatched? ==> o.requestId == RequestId(q, generated) && o.score == LambdaScore(q)
  {
  }

  lemma ServedOne(env: Environment, s: State, s1: State, n: string, entry: KhipuLedger.Entry)
    requires Sound(s) && n in s.tiles && s1 == s.(seen := s1.seen)
    ensures OneMoreJob(s, Served(env, s1, n, entry), n) && Receipts(s, Served(env, s1, n, entry), entry)
  {
  }

  lemma RoutedBody(q: Request, o: Outcome, seqNo: int, text: string)
    requires o.Dispatched? && o.score == LambdaScore(q)
    ensures Routed(ReceiptBody(q, o.requestId, seqNo, text), q, o, seqNo, text)
  {
  }

  /** What the routing receipt states. */
  ghost predicate Routed(b: KhipuLedger.Body, q: Request, o: Outcome, seqNo: int, text: string)
    requires o.Dispatched?
  {
    b == KhipuLedger.Body("coordinator", o.requestId, seqNo, if q.model == None then "unknown" else q.model.value,
                          o.score, 0, 0, 0.0, text, if q.requestLabel == None then "LIVE" else q.requestLabel.value)
  }

  /** The node counts one more open connection, one more job and one more credit; no other node's tile or count
      changes. */
  ghost predicate OneMoreJob(s: State, t: State, n: string)
    requires n in s.tiles
  {
    && t.connections.Keys == s.connections.Keys + {n} && t.tiles.Keys == s.tiles.Keys
    && t.connections[n] == Count(s.connections, n) + 1 && OneMoreOn(s.tiles[n], t.tiles[n])
    && (forall m :: m in s.connections && m != n ==> t.connections[m] == s.connections[m])
    && (forall m :: m in s.tiles && m != n ==> t.tiles[m] == s.tiles[m])
  }

  predicate OneMoreOn(a: NodeTile, b: NodeTile)
  {
    b == a.(totalJobs := a.totalJobs + 1, contribution := a.contribution + 1.0)
  }

  /** The ledger gains one entry; what else the coordinator keeps beside tiles and counts stays. */
  predicate Receipts(s: State, t: State, entry: KhipuLedger.Entry)
  {
    t.chain == s.chain + [entry] && t.totalLayers == s.totalLayers && t.order == s.order && t.revoked == s.revoked
  }

  predicate HostsIt(t: NodeTile, h: Host)
  {
    && h.nodeName == t.nodeName && h.hostname == t.hostname && h.port == t.port
    && h.layerStart == t.layerStart && h.layerEnd == t.layerEnd
  }

  lemma ServedKeepsFormation(env: Environment, s: State, nodeId: string, entry: KhipuLedger.Entry)
    requires nodeId in s.tiles
    ensures SameFormation(s, Served(env, s, nodeId, entry))
  {
  }

  lemma DispatchKeepsFormation(env: Environment, s: State, q: Request, generated: string, r: Reading)
    requires Sound(s)
    ensures SameFormation(s, Dispatch(env, s, q, generated, r).0)
  {
    var o := Dispatch(env, s, q, generated, r).1;
    DispatchServes(env, s, q, generated, r);
    if o.Dispatched? {
      ServedKeepsFormation(env, s.(seen := Relay.Record(s.seen, Relay.TTL_SECONDS, CallOf(q, generated, r))),
        o.nodeId, o.entry);
    }
  }

  // ---- the stages' requests ----

  lemma StageIdsDiffer(base: string, j: nat, k: nat)
    requires StageId(base, j) == StageId(base, k)
    ensures j == k
  {
    var p := base + "::stage";
    assert StageId(base, j)[|p|..] == Decimal.Text(j) && StageId(base, k)[|p|..] == Decimal.Text(k);
    Decimal.TextInjective(j, k);
  }

  /** Whether the gate lets the stages of a request through. */
  predicate StagesPass(q: Request)
  {
    if q.lambdaScore.Some? && q.lambdaScore.value != 0.0 then q.lambdaScore.value >= LAMBDA_THRESHOLD_ADVISORY
    else q.model.Some? && q.model.value != ""
  }

  lemma GateOfStage(q: Request, base: string, k: nat)
    ensures LambdaPasses(StageRequest(q, base, k)) <==> StagesPass(q)
    ensures RequestId(StageRequest(q, base, k), "") == StageId(base, k)
  {
    assert |StageId(base, k)| > 0;
  }

  function StageCall(base: string, clock: Readings, k: nat): Relay.Call
    requires k > 0
  {
    Relay.Call(StageId(base, k), clock(k - 1).now, clock(k - 1).stamp)
  }

  /** The clock does not go back between stages. */
  ghost predicate Steady(clock: Readings)
  {
    forall i, j :: i <= j ==> clock(i).now <= clock(j).now
  }

  /** Stage k may be dispatched, judged from the relay's table before the pipeline starts. */
  ghost predicate Free(s: State, q: Request, base: string, clock: Readings, k: nat)
    requires k > 0
  {
    StagesPass(q) && !Relay.Remembered(s.seen, Relay.TTL_SECONDS, StageCall(base, clock, k))
  }

  ghost predicate AllFree(s: State, q: Request, base: string, clock: Readings, k: nat)
  {
    forall i :: 1 <= i <= k ==> Free(s, q, base, clock, i)
  }

  // ---- the loop ----

  /** The tables agree about every stage after this one. */
  ghost predicate SameMemory(s: State, t: State, base: string, clock: Readings, step: nat)
  {
    forall k :: k > step ==>
      (Relay.Remembered(s.seen, Relay.TTL_SECONDS, StageCall(base, clock, k)) <==>
       Relay.Remembered(t.seen, Relay.TTL_SECONDS, StageCall(base, clock, k)))
  }

  lemma RecordKeepsMemory(s: State, t: State, base: string, clock: Readings, step: nat)
    requires Steady(clock)
    requires t.seen == Relay.Record(s.seen, Relay.TTL_SECONDS, StageCall(base, clock, step + 1))
    ensures SameMemory(s, t, base, clock, step + 1)
  {
    forall k | k > step + 1
      ensures Relay.Remembered(s.seen, Relay.TTL_SECONDS, StageCall(base, clock, k)) <==>
              Relay.Remembered(t.seen, Relay.TTL_SECONDS, StageCall(base, clock, k))
    {
      assert clock(step).now <= clock(k - 1).now;
      if StageId(base, k) == StageId(base, step + 1) { StageIdsDiffer(base, k, step + 1); }
    }
  }

  function JobIds(chain: seq<KhipuLedger.Entry>): (r: seq<string>)
    ensures |r| == |chain| && forall i :: 0 <= i < |chain| ==> r[i] == chain[i].receipt.body.jobId
  {
    seq(|chain|, i requires 0 <= i < |chain| => chain[i].receipt.body.jobId)
  }

  /** The ids of stages 1 to k. */
  function StageIds(base: string, k: nat): (r: seq<string>)
    ensures |r| == k && forall i :: 0 <= i < k ==> r[i] == StageId(base, i + 1)
  {
    if k == 0 then [] else StageIds(base, k - 1) + [StageId(base, k)]
  }

  /** The receipts for stages 1 to k follow the chain of s in the chain of t, in stage order. */
  ghost predicate Receipted(s: State, t: State, base: string, k: nat)
  {
    s.chain <= t.chain && JobIds(t.chain) == JobIds(s.chain) + StageIds(base, k)
  }

  lemma OneMoreReceipt(s: State, t: State, u: State, base: string, k: nat, entry: KhipuLedger.Entry)
    requires Receipted(s, t, base, k) && u.chain == t.chain + [entry]
      && entry.receipt.body.jobId == StageId(base, k + 1)
    ensures Receipted(s, u, base, k + 1)
  {
    assert JobIds(u.chain) == JobIds(t.chain) + [StageId(base, k + 1)];
  }

  /** Where the loop stands after `step` stages that all went well. */
  ghost predicate Underway(s: State, t: State, q: Request, base: string, clock: Readings, step: nat)
  {
    && Sound(s) && Sound(t) && SameFormation(s, t)
    && Receipted(s, t, base, step) && SameMemory(s, t, base, clock, step)
  }

  /** What a dispatch of the next stage does, said without the dispatch. */
  ghost predicate Turned(t: State, t': State, o: Outcome, q: Request, call: Relay.Call)
  {
    && (o.Dispatched? <==> !Relay.Remembered(t.seen, Relay.TTL_SECONDS, call) && StagesPass(q) && AnyUp(t))
    && (o.Dispatched? ==> t'.chain == t.chain + [o.entry] && o.entry.receipt.body.jobId == call.id)
    && (!o.Dispatched? ==> t'.chain == t.chain)
    && t'.seen == Relay.Record(t.seen, Relay.TTL_SECONDS, call)
    && SameFormation(t, t') && Sound(t')
  }

  lemma StageDispatch(env: Environment, t: State, q: Request, base: string, clock: Readings, step: nat)
    requires Sound(t)
    ensures
      var (t', o) := Dispatch(env, t, StageRequest(q, base, step + 1), "", clock(step));
      Turned(t, t', o, q, StageCall(base, clock, step + 1))
  {
    var stage := StageRequest(q, base, step + 1);
    GateOfStage(q, base, step + 1);
    DispatchedIff(env, t, stage, "", clock(step));
    DispatchKeepsFormation(env, t, stage, "", clock(step));
    DispatchKeepsSound(env, t, stage, "", clock(step));
  }

  lemma StageTurn(s: State, t: State, t': State, o: Outcome, q: Request, base: string, clock: Readings, step: nat)
    requires Underway(s, t, q, base, clock, step) && AnyUp(s) && Steady(clock)
    requires Turned(t, t', o, q, StageCall(base, clock, step + 1))
    ensures o.Dispatched? <==> Free(s, q, base, clock, step + 1)
    ensures o.Dispatched? ==> Underway(s, t', q, base, clock, step + 1)
    ensures !o.Dispatched? ==> Receipted(s, t', base, step)
  {
    RecordKeepsMemory(t, t', base, clock, step);
    MemoryTransitive(s, t, t', base, clock, step);
    if o.Dispatched? { OneMoreReceipt(s, t, t', base, step, o.entry); }
    StillUp(s, t);
  }

  lemma MemoryTransitive(s: State, t: State, u: State, base: string, clock: Readings, step: nat)
    requires SameMemory(s, t, base, clock, step) && SameMemory(t, u, base, clock, step + 1)
    ensures SameMemory(s, u, base, clock, step + 1)
  {
    forall k | k > step + 1
      ensures Relay.Remembered(s.seen, Relay.TTL_SECONDS, StageCall(base, clock, k)) <==>
              Relay.Remembered(u.seen, Relay.TTL_SECONDS, StageCall(base, clock, k))
    {
    }
  }

  lemma StillUp(s: State, t: State)
    requires SameFormation(s, t)
    ensures AnyUp(s) <==> AnyUp(t)
  {
    if AnyUp(s) { var n :| n in s.tiles && s.tiles[n].status == UP; assert n in t.tiles && t.tiles[n].status == UP; }
    if AnyUp(t) { var n :| n in t.tiles && t.tiles[n].status == UP; assert n in s.tiles && s.tiles[n].status == UP; }
  }

  /** What the loop returns when `done` is the first stage after which it does not go on. */
  ghost predicate StopsAfter(s: State, q: Request, base: string, clock: Readings, budget: nat, stages: nat, done: nat)
  {
    && done <= Min(budget, stages) && AllFree(s, q, base, clock, done)
    && (done < Min(budget, stages) ==> !Free(s, q, base, clock, done + 1))
  }

  function ExitAfter(budget: nat, stages: nat, covered: bool, done: nat): Exit
  {
    if done == stages then (if stages > 0 && covered then CONVERGED else DEGRADED)
    else if done == budget then BUDGET_EXHAUSTED
    else DEGRADED
  }

  /** The outcome of a loop, started in s, of which `done` stages were dispatched. */
  ghost predicate Ends(s: State, s': State, r: PipelineResult, base: string, budget: nat, stages: nat, covered: bool,
                       done: nat)
  {
    && r.exit == ExitAfter(budget, stages, covered, done)
    && r.steps == (if done < Min(budget, stages) then done + 1 else done)
    && Receipted(s, s', base, done)
  }

  lemma WalkStops(env: Environment, s: State, t: State, q: Request, base: string, budget: nat, stages: nat,
                  covered: bool, clock: Readings, step: nat, results: seq<Outcome>)
    requires Sound(t) && step <= stages && step <= budget && (step == stages || step == budget)
    requires Receipted(s, t, base, step)
    ensures
      var (s', r) := Walk(env, t, q, base, budget, stages, covered, clock, step, results);
      Ends(s, s', r, base, budget, stages, covered, step)
  {
  }

  lemma WalkFails(env: Environment, s: State, t: State, q: Request, base: string, budget: nat, stages: nat,
                  covered: bool, clock: Readings, step: nat, results: seq<Outcome>, t': State, o: Outcome)
    requires Sound(t) && step < stages && step < budget
    requires (t', o) == Dispatch(env, t, StageRequest(q, base, step + 1), "", clock(step)) && !o.Dispatched?
    requires Receipted(s, t', base, step)
    ensures
      var (s', r) := Walk(env, t, q, base, budget, stages, covered, clock, step, results);
      Ends(s, s', r, base, budget, stages, covered, step)
  {
  }

  lemma WalkGoesOn(env: Environment, t: State, q: Request, base: string, budget: nat, stages: nat, covered: bool,
                   clock: Readings, step: nat, results: seq<Outcome>, t': State, o: Outcome)
    requires Sound(t) && step < stages && step < budget && Sound(t')
    requires (t', o) == Dispatch(env, t, StageRequest(q, base, step + 1), "", clock(step)) && o.Dispatched?
    ensures Walk(env, t, q, base, budget, stages, covered, clock, step, results)
      == Walk(env, t', q, base, budget, stages, covered, clock, step + 1, results + [o])
  {
  }

  /** The dispatch of the next stage takes the loop one stage further, or ends it where it must end. */
  lemma LoopTurn(env: Environment, s: State, t: State, q: Request, base: string, budget: nat, stages: nat,
                 clock: Readings, step: nat, done: nat)
    requires Underway(s, t, q, base, clock, step) && AnyUp(s) && Steady(clock)
    requires step <= done && step < Min(budget, stages) && StopsAfter(s, q, base, clock, budget, stages, done)
    ensures
      var (t', o) := Dispatch(env, t, StageRequest(q, base, step + 1), "", clock(step));
      && (o.Dispatched? ==> step + 1 <= done && Underway(s, t', q, base, clock, step + 1))
      && (!o.Dispatched? ==> done == step && Receipted(s, t', base, step))
  {
    var d := Dispatch(env, t, StageRequest(q, base, step + 1), "", clock(step));
    StageDispatch(env, t, q, base, clock, step);
    TurnTowards(s, t, d.0, d.1, q, base, budget, stages, clock, step, done);
  }

  lemma TurnTowards(s: State, t: State, t': State, o: Outcome, q: Request, base: string, budget: nat, stages: nat,
                    clock: Readings, step: nat, done: nat)
    requires Underway(s, t, q, base, clock, step) && AnyUp(s) && Steady(clock)
    requires Turned(t, t', o, q, StageCall(base, clock, step + 1))
    requires step <= done && step < Min(budget, stages) && StopsAfter(s, q, base, clock, budget, stages, done)
    ensures o.Dispatched? ==> step + 1 <= done && Underway(s, t', q, base, clock, step + 1)
    ensures !o.Dispatched? ==> done == step && Receipted(s, t', base, step)
  {
    StageTurn(s, t, t', o, q, base, clock, step);
    FreeUntilDone(s, q, base, clock, budget, stages, step, done);
  }

  lemma FreeUntilDone(s: State, q: Request, base: string, clock: Readings, budget: nat, stages: nat, step: nat,
                      done: nat)
    requires step <= done && step < Min(budget, stages) && StopsAfter(s, q, base, clock, budget, stages, done)
    ensures Free(s, q, base, clock, step + 1) <==> step < done
  {
  }

  lemma {:induction false} WalkFrom(env: Environment, s: State, t: State, q: Request, base: string, budget: nat,
                                    stages: nat, covered: bool, clock: Readings, step: nat, results: seq<Outcome>,
                                    done: nat, s': State, r: PipelineResult)
    requires Underway(s, t, q, base, clock, step) && (stages > 0 ==> AnyUp(s)) && Steady(clock)
    requires step <= done && StopsAfter(s, q, base, clock, budget, stages, done)
    requires (s', r) == Walk(env, t, q, base, budget, stages, covered, clock, step, results)
    ensures Ends(s, s', r, base, budget, stages, covered, done)
    decreases stages - step
  {
    if step < stages && step < budget {
      var d := Dispatch(env, t, StageRequest(q, base, step + 1), "", clock(step));
      LoopTurn(env, s, t, q, base, budget, stages, clock, step, done);
      if d.1.Dispatched? {
        WalkGoesOn(env, t, q, base, budget, stages, covered, clock, step, results, d.0, d.1);
        WalkFrom(env, s, d.0, q, base, budget, stages, covered, clock, step + 1, results + [d.1], done, s', r);
      } else {
        WalkFails(env, s, t, q, base, budget, stages, covered, clock, step, results, d.0, d.1);
      }
    } else {
      WalkStops(env, s, t, q, base, budget, stages, covered, clock, step, results);
    }
  }

  lemma {:induction false} StopExists(s: State, q: Request, base: string, clock: Readings, budget: nat, stages: nat,
                                      from: nat)
    returns (done: nat)
    requires from <= Min(budget, stages) && AllFree(s, q, base, clock, from)
    ensures StopsAfter(s, q, base, clock, budget, stages, done)
    decreases Min(budget, stages) - from
  {
    done := from;
    if from < Min(budget, stages) && Free(s, q, base, clock, from + 1) {
      done := StopExists(s, q, base, clock, budget, stages, from + 1);
    }
  }

  lemma PlanNeedsUp(s: State, stages: seq<NodeTile>, covered: bool)
    requires Sound(s) && Planned(s, stages, covered) && stages != []
    ensures AnyUp(s)
  {
    var up := Filter(PipelinePlan.IsUp, TileList(s));
    assert PipelinePlan.GreedyStage(up, s.totalLayers, stages, 0);
    var t := stages[0];
    assert t in TileList(s);
    var i :| 0 <= i < |TileList(s)| && TileList(s)[i] == t;
    assert s.order[i] in s.tiles;
  }

  /** All exits at once. `done` is how many stages are dispatched: as many as the budget, the plan, the gate and the
      relay's memory of the stage ids allow. */
  lemma Exits(env: Environment, s: State, q: Request, base: string, budget: nat, stages: seq<NodeTile>, covered: bool,
              clock: Readings)
    returns (done: nat)
    requires Sound(s) && Planned(s, stages, covered) && Steady(clock)
    ensures StopsAfter(s, q, base, clock, budget, |stages|, done)
    ensures
      var (s', r) := Walk(env, s, q, base, budget, |stages|, covered, clock, 0, []);
      Ends(s, s', r, base, budget, |stages|, covered, done)
  {
    done := StopExists(s, q, base, clock, budget, |stages|, 0);
    if stages != [] { PlanNeedsUp(s, stages, covered); }
    var e := Walk(env, s, q, base, budget, |stages|, covered, clock, 0, []);
    WalkFrom(env, s, s, q, base, budget, |stages|, covered, clock, 0, [], done, e.0, e.1);
  }

  /** A pipeline converges exactly when its plan is a covering one within the budget, the gate passes, and no stage id
      is still remembered when its turn comes; it then has one receipt for every stage, in order. */
  lemma ConvergedIff(env: Environment, s: State, q: Request, base: string, budget: nat, stages: seq<NodeTile>,
                     covered: bool, clock: Readings)
    requires Sound(s) && Planned(s, stages, covered) && Steady(clock)
    ensures
      var (s', r) := Walk(env, s, q, base, budget, |stages|, covered, clock, 0, []);
      && (r.exit == CONVERGED <==>
          stages != [] && covered && |stages| <= budget && AllFree(s, q, base, clock, |stages|))
      && (r.exit == CONVERGED ==> r.steps == |stages| && Receipted(s, s', base, |stages|))
  {
    var done := Exits(env, s, q, base, budget, stages, covered, clock);
  }

  /** Said of the request: with a limit m, or without one a setting of m, or without either m = 8, the budget is m, and
      the pipeline converges exactly under those conditions. */
  lemma PipelineConvergesIff(env: Environment, s: State, q: Request, generated: string, maxSteps: Option<int>,
                             setting: Option<int>, m: nat, stages: seq<NodeTile>, covered: bool, clock: Readings)
    requires Sound(s) && Planned(s, stages, covered) && Steady(clock) && 1 <= m <= 1024
    requires
      || maxSteps == Some(m)
      || ((maxSteps.Some? ==> maxSteps.value < 1) &&
          (setting == Some(m) || (m == 8 && (setting.Some? ==> setting.value < 1))))
    ensures
      var base, budget := if q.requestId != "" then q.requestId else generated, Budget(maxSteps, setting);
      var (s', r) := Walk(env, s, q, RequestId(q, generated), budget, |stages|, covered, clock, 0, []);
      && r.budget == m
      && (r.exit == CONVERGED <==>
          stages != [] && covered && |stages| <= m && AllFree(s, q, base, clock, |stages|))
      && (r.exit == BUDGET_EXHAUSTED <==> |stages| > m && AllFree(s, q, base, clock, m))
  {
    BudgetExact(maxSteps, setting);
    var base := RequestId(q, generated);
    StepsBounded(env, s, q, base, m, |stages|, covered, clock, 0, []);
    ConvergedIff(env, s, q, base, m, stages, covered, clock);
    BudgetExhaustedIff(env, s, q, base, m, stages, covered, clock);
  }

  /** It exhausts its budget exactly when the plan is longer and every stage within the budget goes well; the budget
      is then spent on receipts, one for each step. */
  lemma BudgetExhaustedIff(env: Environment, s: State, q: Request, base: string, budget: nat, stages: seq<NodeTile>,
                           covered: bool, clock: Readings)
    requires Sound(s) && Planned(s, stages, covered) && Steady(clock)
    ensures
      var (s', r) := Walk(env, s, q, base, budget, |stages|, covered, clock, 0, []);
      && (r.exit == BUDGET_EXHAUSTED <==> |stages| > budget && AllFree(s, q, base, clock, budget))
      && (r.exit == BUDGET_EXHAUSTED ==> r.steps == budget && Receipted(s, s', base, budget))
  {
    var done := Exits(env, s, q, base, budget, stages, covered, clock);
  }

  /** Whatever the clock and the plan, the loop stays within its budget, and that within the hard cap. */
  lemma {:induction false} StepsBounded(env: Environment, s: State, q: Request, base: string, budget: nat, stages: nat,
                                        covered: bool, clock: Readings, step: nat, results: seq<Outcome>)
    requires Sound(s) && step <= stages && step <= budget
    ensures
      var (s', r) := Walk(env, s, q, base, budget, stages, covered, clock, step, results);
      && step <= r.steps <= Min(budget, stages)
      && |r.results| == |results| + r.steps - step && results <= r.results
      && r.budget == budget && r.covered == covered
    decreases stages - step
  {
    if step < stages && step < budget {
      var stage := StageRequest(q, base, step + 1);
      DispatchKeepsSound(env, s, stage, "", clock(step));
      var d := Dispatch(env, s, stage, "", clock(step));
      if d.1.Dispatched? {
        StepsBounded(env, d.0, q, base, budget, stages, covered, clock, step + 1, results + [d.1]);
      }
    }
  }

  /** The results of a loop, stage by stage: each is the dispatch of its own stage, and only the last may have failed,
      in which case the pipeline is degraded. */
  ghost predicate Tells(r: PipelineResult, base: string, results: seq<Outcome>)
  {
    && results <= r.results && |r.results| == r.steps
    && (forall i :: |results| <= i < r.steps && r.results[i].Dispatched? ==>
        r.results[i].requestId == base + "::stage" + Decimal.Text(i + 1))
    && (forall i :: |results| <= i < r.steps && !r.results[i].Dispatched? ==> i == r.steps - 1 && r.exit == DEGRADED)
  }

  lemma TellsOneMore(r: PipelineResult, base: string, results: seq<Outcome>, o: Outcome)
    requires Tells(r, base, results + [o])
    requires o.Dispatched? && o.requestId == StageId(base, |results| + 1)
    ensures Tells(r, base, results)
  {
    assert r.results[|results|] == (results + [o])[|results|] == o;
  }

  lemma StageYields(env: Environment, s: State, q: Request, base: string, k: nat, r: Reading, t: State, o: Outcome)
    requires Sound(s) && (t, o) == Dispatch(env, s, StageRequest(q, base, k), "", r) && o.Dispatched?
    ensures Sound(t) && o.requestId == StageId(base, k)
  {
    DispatchKeepsSound(env, s, StageRequest(q, base, k), "", r);
    DispatchStates(env, s, StageRequest(q, base, k), "", r);
    GateOfStage(q, base, k);
  }

  lemma EndTells(env: Environment, s: State, q: Request, base: string, budget: nat, stages: nat, covered: bool,
                 clock: Readings, step: nat, results: seq<Outcome>, t: State, o: Outcome)
    requires Sound(s) && step == |results| <= stages && step <= budget
    requires (t, o) == Dispatch(env, s, StageRequest(q, base, step + 1), "", clock(step))
    requires step < stages && step < budget ==> !o.Dispatched?
    ensures Tells(Walk(env, s, q, base, budget, stages, covered, clock, step, results).1, base, results)
  {
  }

  /** The loop is over, or its next stage fails and is the last result, or it goes on with one result more. */
  lemma NextTells(env: Environment, s: State, q: Request, base: string, budget: nat, stages: nat, covered: bool,
                  clock: Readings, step: nat, results: seq<Outcome>, r: PipelineResult)
    returns (more: bool, t: State, o: Outcome)
    requires Sound(s) && step == |results| <= stages && step <= budget && base != ""
    requires r == Walk(env, s, q, base, budget, stages, covered, clock, step, results).1
    ensures !more ==> Tells(r, base, results)
    ensures more ==>
      && step < stages && step < budget && Sound(t) && o.Dispatched? && o.requestId == StageId(base, step + 1)
      && r == Walk(env, t, q, base, budget, stages, covered, clock, step + 1, results + [o]).1
  {
    var d := Dispatch(env, s, StageRequest(q, base, step + 1), "", clock(step));
    t, o := d.0, d.1;
    more := step < stages && step < budget && o.Dispatched?;
    if more {
      StageYields(env, s, q, base, step + 1, clock(step), t, o);
      WalkGoesOn(env, s, q, base, budget, stages, covered, clock, step, results, t, o);
    } else {
      EndTells(env, s, q, base, budget, stages, covered, clock, step, results, t, o);
    }
  }

  lemma {:induction false} ResultsTell(env: Environment, s: State, q: Request, base: string, budget: nat, stages: nat,
                                       covered: bool, clock: Readings, step: nat, results: seq<Outcome>,
                                       r: PipelineResult)
    requires Sound(s) && step == |results| <= stages && step <= budget && base != ""
    requires r == Walk(env, s, q, base, budget, stages, covered, clock, step, results).1
    ensures Tells(r, base, results)
    decreases stages - step
  {
    var more, t, o := NextTells(env, s, q, base, budget, stages, covered, clock, step, results, r);
    if more {
      ResultsTell(env, t, q, base, budget, stages, covered, clock, step + 1, results + [o], r);
      TellsOneMore(r, base, results, o);
    }
  }
}
