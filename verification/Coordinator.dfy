// The mesh coordinator (sovereign/szl_mesh_coordinator.MeshCoordinator). Each method is one atomic step.
module Coordinator {
  import opened Prelude
  import opened Orders
  import opened Tiles
  import opened LayerAssignment
  import LeastConnections
  import PipelinePlan
  import Relay
  import KhipuLedger
  import Decimal

  const NODE_OFFLINE_TIMEOUT_SECONDS: real := 90.0
  const LAMBDA_THRESHOLD_ADVISORY: real := 0.5
  const AYNI_CREDIT_PER_JOB: real := 1.0
  const DEFAULT_LOOP_BUDGET := 8
  const MAX_LOOP_BUDGET := 1024

  datatype Hardware = Hardware(nodeName: string, hostname: string, port: int, arch: string, backend: string,
                               vram: real, cpuRam: real)

  /** The payload of a join token whose MAC verifies. */
  datatype TokenPayload = TokenPayload(nodeId: string, expiresAt: real)

  /** The library functions the coordinator calls. Nothing is assumed about them. */
  datatype Environment = Environment(
    nodeIdOf: Hardware -> string,                 // a prefix of SHA-256(hostname:port)
    issueToken: (Hardware, real) -> string,
    openToken: string -> Option<TokenPayload>,    // None when malformed or the MAC does not match
    rng: LeastConnections.Rng,
    ledger: KhipuLedger.Suite,
    secret: bytes)

  datatype Request = Request(requestId: string, model: Option<string>, lambdaScore: Option<real>,
                             requestLabel: Option<string>)

  /** The clock readings of one dispatch: for the relay's eviction, for its stamp, and the receipt's time text. */
  datatype Reading = Reading(now: real, stamp: real, text: string)

  /** Where a dispatched request is to be served. */
  datatype Host = Host(nodeName: string, hostname: string, port: int, layerStart: int, layerEnd: int)

  function HostOf(t: NodeTile): Host { Host(t.nodeName, t.hostname, t.port, t.layerStart, t.layerEnd) }

  datatype Outcome =
    | Duplicate
    | Rejected(score: real)
    | Degraded(score: real, downNodes: seq<string>)
    | Dispatched(requestId: string, nodeId: string, host: Host, score: real, entry: KhipuLedger.Entry)

  /** All that the coordinator keeps. `order` is the order of the tile dictionary. */
  datatype State = State(
    totalLayers: int, tiles: map<string, NodeTile>, order: seq<string>, connections: map<string, int>,
    revoked: set<string>, seen: Relay.Sightings, chain: seq<KhipuLedger.Entry>)

  function Initial(totalLayers: int): State { State(totalLayers, map[], [], map[], {}, map[], []) }

  /** The dictionary's order lists its keys, tiles are filed under their ids, and every tile has a connection count. */
  ghost predicate Sound(s: State)
  {
    && Distinct(s.order) && Elements(s.order) == s.tiles.Keys == s.connections.Keys
    && forall n :: n in s.tiles ==> s.tiles[n].nodeId == n && s.tiles[n].layerStart >= 0
  }

  function TileList(s: State): (r: seq<NodeTile>)
    requires Elements(s.order) <= s.tiles.Keys
    ensures |r| == |s.order| && forall i :: 0 <= i < |r| ==> s.order[i] in s.tiles && r[i] == s.tiles[s.order[i]]
  {
    assert forall i :: 0 <= i < |s.order| ==> s.order[i] in Elements(s.order);
    seq(|s.order|, i requires 0 <= i < |s.order| => s.tiles[s.order[i]])
  }

  // ---- joining ----

  function Shares(tiles: seq<NodeTile>): (r: seq<Share>)
    ensures |r| == |tiles|
    ensures forall i :: 0 <= i < |tiles| ==> r[i] == Share(tiles[i].vram, tiles[i].layerStart, tiles[i].layerEnd)
  {
    seq(|tiles|, i requires 0 <= i < |tiles| => Share(tiles[i].vram, tiles[i].layerStart, tiles[i].layerEnd))
  }

  function NewTile(env: Environment, hw: Hardware, start: int, end: int, now: real): NodeTile
  {
    NodeTile(env.nodeIdOf(hw), hw.nodeName, hw.hostname, hw.port, hw.arch, hw.backend, hw.vram, hw.cpuRam, start, end,
             env.issueToken(hw, now), UP, 0, 0.0, now)
  }

  /** The layers a joining node is given: by the VRAM of all nodes on file, whether up or down. */
  ghost predicate Allotted(s: State, hw: Hardware, start: int, end: int)
    requires Sound(s)
  {
    Assigned(s.totalLayers, Shares(TileList(s)), hw.vram, start, end)
  }

  /** A join replaces whatever tile the node had, counters included, and does not ask about revocation. */
  function Joined(env: Environment, s: State, hw: Hardware, start: int, end: int, now: real): State
  {
    var id := env.nodeIdOf(hw);
    s.(tiles := s.tiles[id := NewTile(env, hw, start, end, now)],
       order := if id in s.tiles then s.order else s.order + [id],
       connections := s.connections[id := 0])
  }

  lemma JoinKeepsSound(env: Environment, s: State, hw: Hardware, start: int, end: int, now: real)
    requires Sound(s) && Allotted(s, hw, start, end)
    ensures Sound(Joined(env, s, hw, start, end, now))
  {
    AssignmentUnique(s.totalLayers, Shares(TileList(s)), hw.vram, start, end, start, end);
    var id, s' := env.nodeIdOf(hw), Joined(env, s, hw, start, end, now);
    assert id in Elements(s.order) <==> id in s.order;
    assert Elements(s'.order) == Elements(s.order) + {id};
  }

  // ---- heartbeats, eviction, revocation, completion ----

  function VerifyToken(env: Environment, token: string, revoked: set<string>, now: real): Option<TokenPayload>
  {
    var p := env.openToken(token);
    if p == None || p.value.expiresAt < now || p.value.nodeId in revoked then None else p
  }

  function HeartbeatAccepted(env: Environment, s: State, nodeId: string, token: string, now: real): bool
  {
    var p := VerifyToken(env, token, s.revoked, now);
    p.Some? && p.value.nodeId == nodeId
  }

  function Heard(env: Environment, s: State, nodeId: string, token: string, now: real, seenAt: real): State
  {
    if HeartbeatAccepted(env, s, nodeId, token, now) && nodeId in s.tiles
    then s.(tiles := s.tiles[nodeId := s.tiles[nodeId].(lastSeen := seenAt, status := UP)])
    else s
  }

  predicate Stale(t: NodeTile, now: real)
  {
    t.status == UP && now - t.lastSeen > NODE_OFFLINE_TIMEOUT_SECONDS
  }

  /** The stale tiles among these ids are marked down. */
  function Swept(tiles: map<string, NodeTile>, ids: set<string>, now: real): map<string, NodeTile>
  {
    map n | n in tiles :: if n in ids && Stale(tiles[n], now) then tiles[n].(status := DOWN) else tiles[n]
  }

  function Evicted(s: State, now: real): State { s.(tiles := Swept(s.tiles, s.tiles.Keys, now)) }

  lemma SweepOne(tiles: map<string, NodeTile>, ids: set<string>, now: real, n: string)
    requires n in tiles && n !in ids
    ensures Swept(tiles, ids + {n}, now) ==
      if Stale(tiles[n], now) then Swept(tiles, ids, now)[n := tiles[n].(status := DOWN)] else Swept(tiles, ids, now)
  {
  }

  /** The stale ones among these ids, in order. */
  function StaleAmong(tiles: map<string, NodeTile>, ids: seq<string>, now: real): (r: seq<string>)
    ensures forall n :: n in r <==> n in ids && n in tiles && Stale(tiles[n], now)
  {
    if ids == [] then []
    else
      var n, before := ids[|ids| - 1], StaleAmong(tiles, ids[..|ids| - 1], now);
      assert ids == ids[..|ids| - 1] + [n];
      if n in tiles && Stale(tiles[n], now) then before + [n] else before
  }

  lemma NextInOrder(order: seq<string>, keys: set<string>, i: nat)
    requires Distinct(order) && Elements(order) == keys && i < |order|
    ensures order[i] in keys && order[i] !in Elements(order[..i]) && Elements(order[..i]) <= keys
    ensures Elements(order[..i + 1]) == Elements(order[..i]) + {order[i]}
    ensures order[..i + 1][..i] == order[..i]
  {
    assert order[i] in Elements(order);
    assert order[..i + 1] == order[..i] + [order[i]];
  }

  lemma SweepNext(tiles: map<string, NodeTile>, order: seq<string>, now: real, i: nat)
    requires Distinct(order) && Elements(order) == tiles.Keys && i < |order|
    ensures
      var n, past := order[i], Swept(tiles, Elements(order[..i]), now);
      && n in past && past[n] == tiles[n]
      && Swept(tiles, Elements(order[..i + 1]), now) ==
         (if Stale(tiles[n], now) then past[n := tiles[n].(status := DOWN)] else past)
      && StaleAmong(tiles, order[..i + 1], now) ==
         StaleAmong(tiles, order[..i], now) + if Stale(tiles[n], now) then [n] else []
  {
    NextInOrder(order, tiles.Keys, i);
    SweepOne(tiles, Elements(order[..i]), now, order[i]);
  }

  /** The eviction loop: the tiles in order, marking the stale ones and listing them. */
  method SweepTiles(before: map<string, NodeTile>, order: seq<string>, now: real)
    returns (tiles: map<string, NodeTile>, evicted: seq<string>)
    requires Distinct(order) && Elements(order) == before.Keys
    ensures tiles == Swept(before, before.Keys, now)
    ensures evicted == StaleAmong(before, order, now)
  {
    tiles, evicted := before, [];
    for i := 0 to |order|
      invariant tiles == Swept(before, Elements(order[..i]), now)
      invariant evicted == StaleAmong(before, order[..i], now)
    {
      var n := order[i];
      NextInOrder(order, before.Keys, i);
      SweepNext(before, order, now, i);
      if tiles[n].status == UP {
        if now - tiles[n].lastSeen > NODE_OFFLINE_TIMEOUT_SECONDS {
          tiles := tiles[n := tiles[n].(status := DOWN)];
          evicted := evicted + [n];
        }
      }
    }
    assert order[..|order|] == order;
  }

  function NodeRevoked(s: State, nodeId: string): State
  {
    s.(revoked := s.revoked + {nodeId},
       tiles := if nodeId in s.tiles then s.tiles[nodeId := s.tiles[nodeId].(status := DOWN)] else s.tiles)
  }

  function Completed(s: State, nodeId: string): State
  {
    if nodeId in s.connections
    then s.(connections := s.connections[nodeId := Max(0, s.connections[nodeId] - 1)])
    else s
  }

  // ---- dispatch ----

  /** lambda_gate_check: a request without a score is scored by having an id and a model. */
  function LambdaScore(q: Request): real
  {
    var score := if q.lambdaScore.Some? then q.lambdaScore.value else 0.0;
    if score == 0.0 then if q.requestId != "" && q.model.Some? && q.model.value != "" then 1.0 else 0.0 else score
  }

  predicate LambdaPasses(q: Request) { LambdaScore(q) >= LAMBDA_THRESHOLD_ADVISORY }

  function Count(connections: map<string, int>, nodeId: string): int
  {
    if nodeId in connections then connections[nodeId] else 0
  }

  function Busier(connections: map<string, int>, nodeId: string): map<string, int>
  {
    connections[nodeId := Count(connections, nodeId) + 1]
  }

  function Candidates(s: State): (r: seq<LeastConnections.Candidate>)
    requires Elements(s.order) <= s.tiles.Keys
    ensures |r| == |s.order|
  {
    var tiles := TileList(s);
    seq(|tiles|, i requires 0 <= i < |tiles| =>
      LeastConnections.Candidate(tiles[i].nodeId, Count(s.connections, tiles[i].nodeId), tiles[i].status))
  }

  function RequestId(q: Request, generated: string): string { if q.requestId != "" then q.requestId else generated }

  function ReceiptBody(q: Request, id: string, seqNo: int, text: string): KhipuLedger.Body
  {
    KhipuLedger.Body("coordinator", id, seqNo, if q.model.Some? then q.model.value else "unknown", LambdaScore(q),
                     0, 0, 0.0, text, if q.requestLabel.Some? then q.requestLabel.value else "LIVE")
  }

  /** The state after a node has been given a job, and the receipt for it. */
  function Served(env: Environment, s: State, nodeId: string, entry: KhipuLedger.Entry): State
    requires nodeId in s.tiles
  {
    var t := s.tiles[nodeId];
    s.(connections := Busier(s.connections, nodeId),
       tiles :=
         s.tiles[nodeId := t.(totalJobs := t.totalJobs + 1, contribution := t.contribution + AYNI_CREDIT_PER_JOB)],
       chain := s.chain + [entry])
  }

  function CountedJob(t: NodeTile): NodeTile { t.(totalJobs := t.totalJobs + 1) }

  function Credited(t: NodeTile): NodeTile { t.(contribution := t.contribution + AYNI_CREDIT_PER_JOB) }

  /** The count before the receipt and the credit after it come to the one update of the specification. */
  lemma ServedTiles(env: Environment, s: State, nodeId: string, entry: KhipuLedger.Entry)
    requires nodeId in s.tiles
    ensures s.tiles[nodeId := CountedJob(s.tiles[nodeId])][nodeId := Credited(CountedJob(s.tiles[nodeId]))]
      == Served(env, s, nodeId, entry).tiles
  {
  }

  predicate IsDown(t: NodeTile) { t.status == DOWN }

  function TileIds(tiles: seq<NodeTile>): seq<string>
  {
    seq(|tiles|, i requires 0 <= i < |tiles| => tiles[i].nodeId)
  }

  function Dispatch(env: Environment, s: State, q: Request, generated: string, r: Reading): (State, Outcome)
    requires Sound(s)
  {
    var id := RequestId(q, generated);
    var call := Relay.Call(id, r.now, r.stamp);
    var s1 := s.(seen := Relay.Record(s.seen, Relay.TTL_SECONDS, call));
    if Relay.Duplicate(s.seen, Relay.TTL_SECONDS, call) then (s1, Duplicate)
    else if !LambdaPasses(q) then (s1, Rejected(LambdaScore(q)))
    else
      var pick := LeastConnections.Pick(env.rng, id, Candidates(s1));
      if pick == None then (s1, Degraded(LambdaScore(q), TileIds(Filter(IsDown, TileList(s1)))))
      else
        PickIsTile(env, s1, id);
        var entry := KhipuLedger.NewEntry(env.ledger, env.secret, s.chain, ReceiptBody(q, id, |s.chain|, r.text));
        var host := HostOf(s1.tiles[pick.value.nodeId]);
        (Served(env, s1, pick.value.nodeId, entry), Dispatched(id, pick.value.nodeId, host, LambdaScore(q), entry))
  }

  lemma CandidateIsTile(s: State, c: LeastConnections.Candidate)
    requires Sound(s)
    ensures c in Candidates(s) <==>
      c.nodeId in s.tiles && c.connections == s.connections[c.nodeId] && c.status == s.tiles[c.nodeId].status
  {
    var tiles, cs := TileList(s), Candidates(s);
    if c in cs {
      var i :| 0 <= i < |cs| && cs[i] == c;
      assert s.order[i] in Elements(s.order);
    }
    if c.nodeId in s.tiles {
      assert c.nodeId in Elements(s.order);
      var i :| 0 <= i < |s.order| && s.order[i] == c.nodeId;
      assert cs[i].nodeId == c.nodeId;
    }
  }

  /** Somebody is picked exactly when a tile is up; whoever it is is up, with the fewest connections of those up. */
  lemma PickIsTile(env: Environment, s: State, id: string)
    requires Sound(s)
    ensures
      var pick := LeastConnections.Pick(env.rng, id, Candidates(s));
      && (pick.Some? <==> exists n :: n in s.tiles && s.tiles[n].status == UP)
      && (pick.Some? ==> pick.value.nodeId in s.tiles && s.tiles[pick.value.nodeId].status == UP)
      && (pick.Some? ==> forall n :: n in s.tiles && s.tiles[n].status == UP ==>
            s.connections[pick.value.nodeId] <= s.connections[n])
  {
    LeastConnections.PickLeastLoaded(env.rng, id, Candidates(s));
    var pick := LeastConnections.Pick(env.rng, id, Candidates(s));
    if pick.Some? { CandidateIsTile(s, pick.value); }
    forall n | n in s.tiles && s.tiles[n].status == UP
      ensures pick.Some? && pick.value.connections <= s.connections[n]
    {
      var c := LeastConnections.Candidate(n, s.connections[n], UP);
      CandidateIsTile(s, c);
      assert LeastConnections.Online(c);
    }
  }

  lemma ServedKeepsSound(env: Environment, s: State, nodeId: string, entry: KhipuLedger.Entry)
    requires Sound(s) && nodeId in s.tiles
    ensures Sound(Served(env, s, nodeId, entry))
  {
  }

  lemma DispatchKeepsSound(env: Environment, s: State, q: Request, generated: string, r: Reading)
    requires Sound(s)
    ensures Sound(Dispatch(env, s, q, generated, r).0)
  {
    var id := RequestId(q, generated);
    var s1 := s.(seen := Relay.Record(s.seen, Relay.TTL_SECONDS, Relay.Call(id, r.now, r.stamp)));
    PickIsTile(env, s1, id);
    var o := Dispatch(env, s, q, generated, r).1;
    if o.Dispatched? { ServedKeepsSound(env, s1, o.nodeId, o.entry); }
  }

  // ---- the bounded pipeline loop ----

  type Readings = nat -> Reading

  datatype Exit = CONVERGED | BUDGET_EXHAUSTED | DEGRADED

  datatype PipelineResult = PipelineResult(steps: nat, budget: nat, exit: Exit, covered: bool, results: seq<Outcome>)

  /** _loop_budget: the environment's value when it parses as a positive integer, clamped. */
  function LoopBudget(setting: Option<int>): (b: nat)
    ensures 1 <= b <= MAX_LOOP_BUDGET
  {
    if setting == None || setting.value < 1 then DEFAULT_LOOP_BUDGET else Min(setting.value, MAX_LOOP_BUDGET)
  }

  function Budget(maxSteps: Option<int>, setting: Option<int>): (b: nat)
    ensures 1 <= b <= MAX_LOOP_BUDGET
    ensures maxSteps.Some? && maxSteps.value >= 1 ==> b <= maxSteps.value
  {
    Min(if maxSteps.Some? && maxSteps.value >= 1 then maxSteps.value else LoopBudget(setting), MAX_LOOP_BUDGET)
  }

  /** The budget is the caller's limit if that is usable, else the setting if that is, else 8; never above 1024. */
  lemma BudgetExact(maxSteps: Option<int>, setting: Option<int>)
    ensures maxSteps.Some? && maxSteps.value >= 1 ==>
      Budget(maxSteps, setting) == if maxSteps.value <= 1024 then maxSteps.value else 1024
    ensures (maxSteps.Some? ==> maxSteps.value < 1) && setting.Some? && setting.value >= 1 ==>
      Budget(maxSteps, setting) == if setting.value <= 1024 then setting.value else 1024
    ensures (maxSteps.Some? ==> maxSteps.value < 1) && (setting.Some? ==> setting.value < 1) ==>
      Budget(maxSteps, setting) == 8
  {
  }

  /** f"{base}::stage{k}" */
  function StageId(base: string, k: nat): string { base + "::stage" + Decimal.Text(k) }

  function StageRequest(q: Request, base: string, k: nat): Request { q.(requestId := StageId(base, k)) }

  /** The loop over the planned stages, with `step` of them behind it. */
  function Walk(env: Environment, s: State, q: Request, base: string, budget: nat, stages: nat, covered: bool,
                clock: Readings, step: nat, results: seq<Outcome>): (State, PipelineResult)
    requires Sound(s) && step <= stages
    decreases stages - step
  {
    if step == stages then
      (s, PipelineResult(step, budget, if stages > 0 && covered then CONVERGED else DEGRADED, covered, results))
    else if step >= budget then (s, PipelineResult(step, budget, BUDGET_EXHAUSTED, covered, results))
    else
      var d := Dispatch(env, s, StageRequest(q, base, step + 1), "", clock(step));
      DispatchKeepsSound(env, s, StageRequest(q, base, step + 1), "", clock(step));
      if !d.1.Dispatched? then (d.0, PipelineResult(step + 1, budget, DEGRADED, covered, results + [d.1]))
      else Walk(env, d.0, q, base, budget, stages, covered, clock, step + 1, results + [d.1])
  }

  ghost predicate Planned(s: State, stages: seq<NodeTile>, covered: bool)
    requires Sound(s)
  {
    PipelinePlan.Plan(Filter(PipelinePlan.IsUp, TileList(s)), s.totalLayers, stages, covered)
  }

  class MeshCoordinator {
    const env: Environment
    const totalLayers: int
    var tiles: map<string, NodeTile>
    var order: seq<string>
    var activeConnections: map<string, int>
    var revocationStore: set<string>
    const relay: Relay.ChaskiRelay
    const routingLedger: KhipuLedger.JobReceiptLedger

    ghost predicate Valid()
      reads this, relay, routingLedger
    {
      && Sound(Snapshot())
      && relay.ttl == Relay.TTL_SECONDS
      && routingLedger.Valid() && routingLedger.suite == env.ledger && routingLedger.secret == env.secret
      && routingLedger.nodeId == "coordinator"
    }

    ghost function Snapshot(): State
      reads this, relay, routingLedger
    {
      State(totalLayers, tiles, order, activeConnections, revocationStore, relay.seen, routingLedger.chain)
    }

    constructor (env: Environment, totalLayers: int := 32)
      ensures Valid() && fresh(relay) && fresh(routingLedger)
      ensures this.env == env && Snapshot() == Initial(totalLayers)
    {
      this.env := env;
      this.totalLayers := totalLayers;
      tiles, order, activeConnections, revocationStore := map[], [], map[], {};
      relay := new Relay.ChaskiRelay(Relay.TTL_SECONDS);
      routingLedger := new KhipuLedger.JobReceiptLedger(env.ledger, "coordinator", env.secret);
    }

    /** self._tiles.values() */
    function Tiles(): (r: seq<NodeTile>)
      reads this, relay, routingLedger
      requires Valid()
      ensures r == TileList(Snapshot())
    {
      assert forall i :: 0 <= i < |order| ==> order[i] in Elements(order);
      seq(|order|, i requires 0 <= i < |order| && order[i] in tiles reads this => tiles[order[i]])
    }

    method AllotLayers(hw: Hardware) returns (start: int, end: int)
      requires Valid()
      ensures Allotted(Snapshot(), hw, start, end)
    {
      var existing := Shares(Tiles());
      start, end := AssignLayers(totalLayers, existing, hw.vram);
    }

    /** Files a tile under its id, with no connections. */
    method FileTile(tile: NodeTile)
      modifies this`tiles, this`order, this`activeConnections
      ensures tiles == old(tiles)[tile.nodeId := tile] && activeConnections == old(activeConnections)[tile.nodeId := 0]
      ensures order == if tile.nodeId in old(tiles) then old(order) else old(order) + [tile.nodeId]
    {
      if tile.nodeId !in tiles { order := order + [tile.nodeId]; }
      tiles := tiles[tile.nodeId := tile];
      activeConnections := activeConnections[tile.nodeId := 0];
    }

    method JoinNode(hw: Hardware, now: real) returns (tile: NodeTile)
      requires Valid()
      modifies this`tiles, this`order, this`activeConnections
      ensures Valid()
      ensures Allotted(old(Snapshot()), hw, tile.layerStart, tile.layerEnd)
      ensures tile == NewTile(env, hw, tile.layerStart, tile.layerEnd, now)
      ensures Snapshot() == Joined(env, old(Snapshot()), hw, tile.layerStart, tile.layerEnd, now)
      ensures tile.nodeId == env.nodeIdOf(hw) && tile.token == env.issueToken(hw, now)
      ensures tile.nodeName == hw.nodeName && tile.hostname == hw.hostname && tile.port == hw.port
      ensures tile.arch == hw.arch && tile.backend == hw.backend && tile.vram == hw.vram && tile.cpuRam == hw.cpuRam
      ensures tile.status == UP && tile.totalJobs == 0 && tile.contribution == 0.0 && tile.lastSeen == now
      ensures tiles == old(tiles)[tile.nodeId := tile] && activeConnections == old(activeConnections)[tile.nodeId := 0]
    {
      ghost var before := Snapshot();
      var start, end := AllotLayers(hw);
      tile := NewTile(env, hw, start, end, now);
      JoinKeepsSound(env, before, hw, start, end, now);
      FileTile(tile);
      assert Snapshot() == Joined(env, before, hw, start, end, now);
    }

    method ReceiveHeartbeat(nodeId: string, token: string, now: real, seenAt: real) returns (accepted: bool)
      requires Valid()
      modifies this`tiles
      ensures Valid()
      ensures accepted == HeartbeatAccepted(env, old(Snapshot()), nodeId, token, now)
      ensures Snapshot() == Heard(env, old(Snapshot()), nodeId, token, now, seenAt)
      ensures accepted <==>
        exists until :: env.openToken(token) == Some(TokenPayload(nodeId, until)) && now <= until
          && nodeId !in revocationStore
      ensures tiles == if accepted && nodeId in old(tiles)
        then old(tiles)[nodeId := old(tiles)[nodeId].(lastSeen := seenAt, status := UP)] else old(tiles)
    {
      var payload := VerifyToken(env, token, revocationStore, now);
      if payload == None || payload.value.nodeId != nodeId { return false; }
      if nodeId in tiles {
        tiles := tiles[nodeId := tiles[nodeId].(lastSeen := seenAt, status := UP)];
      }
      return true;
    }

    method EvictStaleTiles(now: real) returns (evicted: seq<string>)
      requires Valid()
      modifies this`tiles
      ensures Valid()
      ensures Snapshot() == Evicted(old(Snapshot()), now)
      ensures evicted == StaleAmong(old(tiles), order, now)
      ensures tiles.Keys == old(tiles).Keys
      ensures forall n :: n in evicted <==> n in tiles && old(tiles)[n].status == UP && tiles[n].status == DOWN
      ensures forall n :: n in tiles ==>
        var quiet := old(tiles)[n].status == UP && now - old(tiles)[n].lastSeen > NODE_OFFLINE_TIMEOUT_SECONDS;
        tiles[n] == if quiet then old(tiles)[n].(status := DOWN) else old(tiles)[n]
    {
      ghost var before := Snapshot();
      tiles, evicted := SweepTiles(tiles, order, now);
      assert Snapshot() == Evicted(before, now);
    }

    method RevokeNode(nodeId: string)
      requires Valid()
      modifies this`revocationStore, this`tiles
      ensures Valid()
      ensures Snapshot() == NodeRevoked(old(Snapshot()), nodeId)
      ensures revocationStore == old(revocationStore) + {nodeId}
      ensures tiles ==
        if nodeId in old(tiles) then old(tiles)[nodeId := old(tiles)[nodeId].(status := DOWN)] else old(tiles)
    {
      revocationStore := revocationStore + {nodeId};
      if nodeId in tiles {
        tiles := tiles[nodeId := tiles[nodeId].(status := DOWN)];
      }
    }

    method JobComplete(nodeId: string)
      requires Valid()
      modifies this`activeConnections
      ensures Valid()
      ensures Snapshot() == Completed(old(Snapshot()), nodeId)
      ensures activeConnections ==
        if nodeId !in old(activeConnections) then old(activeConnections)
        else if old(activeConnections)[nodeId] <= 0 then old(activeConnections)[nodeId := 0]
        else old(activeConnections)[nodeId := old(activeConnections)[nodeId] - 1]
    {
      if nodeId in activeConnections {
        activeConnections := activeConnections[nodeId := Max(0, activeConnections[nodeId] - 1)];
      }
    }

    /** The candidate list, in the order of the tiles. */
    function CandidateList(): (r: seq<LeastConnections.Candidate>)
      reads this, relay, routingLedger
      requires Valid()
      ensures r == Candidates(Snapshot())
    {
      var ts := Tiles();
      seq(|ts|, i requires 0 <= i < |ts| reads this =>
        LeastConnections.Candidate(ts[i].nodeId,
          Count(activeConnections, ts[i].nodeId), ts[i].status))
    }

    method DispatchRequest(q: Request, generated: string, r: Reading) returns (o: Outcome)
      requires Valid()
      modifies this`tiles, this`activeConnections, relay, routingLedger
      ensures Valid()
      ensures (Snapshot(), o) == Dispatch(env, old(Snapshot()), q, generated, r)
    {
      var id := RequestId(q, generated);
      var duplicate := relay.IsDuplicate(Relay.Call(id, r.now, r.stamp));
      if duplicate { return Duplicate; }
      var score := LambdaScore(q);
      if !(score >= LAMBDA_THRESHOLD_ADVISORY) { return Rejected(score); }
      PickIsTile(env, Snapshot(), id);
      var pick := LeastConnections.Pick(env.rng, id, CandidateList());
      if pick == None {
        return Degraded(score, TileIds(Filter(IsDown, Tiles())));
      }
      ghost var before := Snapshot();
      var host := HostOf(tiles[pick.value.nodeId]);
      var entry := GiveJob(pick.value.nodeId, q, id, r.text);
      ServedKeepsSound(env, before, pick.value.nodeId, entry);
      return Dispatched(id, pick.value.nodeId, host, score, entry);
    }

    /** Counts the job, appends the routing receipt, and credits the node. */
    method GiveJob(nodeId: string, q: Request, id: string, text: string) returns (entry: KhipuLedger.Entry)
      requires nodeId in tiles
      requires routingLedger.Valid() && routingLedger.nodeId == "coordinator"
      modifies this`tiles, this`activeConnections, routingLedger
      ensures routingLedger.Valid()
      ensures entry == KhipuLedger.NewEntry(routingLedger.suite, routingLedger.secret, old(routingLedger.chain),
                                            ReceiptBody(q, id, |old(routingLedger.chain)|, text))
      ensures Snapshot() == Served(env, old(Snapshot()), nodeId, entry)
    {
      ghost var before := Snapshot();
      CountJob(nodeId);
      entry := AppendRouting(q, id, text);
      Credit(nodeId);
      ServedTiles(env, before, nodeId, entry);
      assert Snapshot() == Served(env, before, nodeId, entry);
    }

    method CountJob(nodeId: string)
      requires nodeId in tiles
      modifies this`tiles, this`activeConnections
      ensures activeConnections == Busier(old(activeConnections), nodeId)
      ensures tiles == old(tiles)[nodeId := CountedJob(old(tiles)[nodeId])]
    {
      activeConnections := activeConnections[nodeId := Count(activeConnections, nodeId) + 1];
      var tile := tiles[nodeId];
      tiles := tiles[nodeId := tile.(totalJobs := tile.totalJobs + 1)];
    }

    method Credit(nodeId: string)
      requires nodeId in tiles
      modifies this`tiles
      ensures tiles == old(tiles)[nodeId := Credited(old(tiles)[nodeId])]
    {
      var tile := tiles[nodeId];
      tiles := tiles[nodeId := tile.(contribution := tile.contribution + AYNI_CREDIT_PER_JOB)];
    }

    /** append_routing */
    method AppendRouting(q: Request, id: string, text: string) returns (entry: KhipuLedger.Entry)
      requires routingLedger.Valid() && routingLedger.nodeId == "coordinator"
      modifies routingLedger
      ensures routingLedger.Valid()
      ensures entry == KhipuLedger.NewEntry(routingLedger.suite, routingLedger.secret, old(routingLedger.chain),
                                            ReceiptBody(q, id, |old(routingLedger.chain)|, text))
      ensures routingLedger.chain == old(routingLedger.chain) + [entry]
    {
      entry := routingLedger.Append(id, if q.model.Some? then q.model.value else "unknown", LambdaScore(q), 0, 0, 0.0,
                                    if q.requestLabel.Some? then q.requestLabel.value else "LIVE", text);
    }

    /** Plans the pipeline once, then dispatches one request per stage within the budget. */
    method RunPipeline(q: Request, generated: string, maxSteps: Option<int>, setting: Option<int>, clock: Readings)
      returns (r: PipelineResult, ghost stages: seq<NodeTile>)
      requires Valid()
      modifies this`tiles, this`activeConnections, relay, routingLedger
      ensures Valid()
      ensures Planned(old(Snapshot()), stages, r.covered)
      ensures (Snapshot(), r) == Walk(env, old(Snapshot()), q, RequestId(q, generated), Budget(maxSteps, setting),
                                      |stages|, r.covered, clock, 0, [])
    {
      var budget := Budget(maxSteps, setting);
      var base := RequestId(q, generated);
      var plan, covered := PipelinePlan.MakePlan(Tiles(), totalLayers);
      stages := plan;
      r := WalkStages(q, base, budget, |plan|, covered, clock);
    }

    /** One dispatch for each planned stage, until the budget is spent or a dispatch fails. */
    method WalkStages(q: Request, base: string, budget: nat, planned: nat, covered: bool, clock: Readings)
      returns (r: PipelineResult)
      requires Valid()
      modifies this`tiles, this`activeConnections, relay, routingLedger
      ensures Valid()
      ensures r.covered == covered
      ensures (Snapshot(), r) == Walk(env, old(Snapshot()), q, base, budget, planned, covered, clock, 0, [])
    {
      ghost var start := Snapshot();
      var step, results := 0, [];
      while step < planned
        invariant 0 <= step <= planned && Valid()
        invariant Walk(env, start, q, base, budget, planned, covered, clock, 0, [])
          == Walk(env, Snapshot(), q, base, budget, planned, covered, clock, step, results)
      {
        if step >= budget {
          return PipelineResult(step, budget, BUDGET_EXHAUSTED, covered, results);
        }
        step := step + 1;
        var o := DispatchRequest(StageRequest(q, base, step), "", clock(step - 1));
        results := results + [o];
        if !o.Dispatched? {
          return PipelineResult(step, budget, DEGRADED, covered, results);
        }
      }
      return PipelineResult(step, budget, if planned > 0 && covered then CONVERGED else DEGRADED, covered, results);
    }
  }
}
