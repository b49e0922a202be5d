// Dispatch over whole runs: at most once per window, fair shares, and the first node's plan.
module DispatchRuns {
  import opened Prelude
  import opened Orders
  import opened Tiles
  import opened Coordinator
  import opened PipelineExits
  import opened CoordinatorRuns
  import LayerAssignment
  import KhipuLedger
  import LeastConnections
  import PipelinePlan
  import Relay

  // ---- at most once per window ----

  /** The relay is asked once for every dispatch. */
  function CallsOf(events: seq<Event>): seq<Relay.Call>
  {
    if events == [] then []
    else
      (if events[0].Submit? then [CallOf(events[0].q, events[0].generated, events[0].reading)] else [])
        + CallsOf(events[1..])
  }

  function CallAt(events: seq<Event>, i: nat): Relay.Call
    requires i < |events| && events[i].Submit?
  {
    CallOf(events[i].q, events[i].generated, events[i].reading)
  }

  lemma {:induction false} CallsSplit(a: seq<Event>, b: seq<Event>)
    ensures CallsOf(a + b) == CallsOf(a) + CallsOf(b)
  {
    if a == [] {
      assert a + b == b;
    } else {
      assert (a + b)[1..] == a[1..] + b;
      CallsSplit(a[1..], b);
    }
  }

  lemma SeenGrows(calls: seq<Relay.Call>, c: Relay.Call)
    ensures Relay.SeenAfter(Relay.TTL_SECONDS, calls + [c])
      == Relay.Record(Relay.SeenAfter(Relay.TTL_SECONDS, calls), Relay.TTL_SECONDS, c)
  {
    assert (calls + [c])[..|calls|] == calls;
  }

  lemma StepSees(env: Environment, s: State, e: Event)
    requires Sound(s) && Possible(s, e)
    ensures Step(env, s, e).seen ==
      if e.Submit? then Relay.Record(s.seen, Relay.TTL_SECONDS, CallOf(e.q, e.generated, e.reading)) else s.seen
  {
    match e
    case Submit(q, generated, r) => DispatchServes(env, s, q, generated, r);
    case _ =>
  }

  lemma CallsCons(events: seq<Event>, past: seq<Relay.Call>)
    requires events != [] && events[0].Submit?
    ensures past + [CallAt(events, 0)] + CallsOf(events[1..]) == past + CallsOf(events)
  {
  }

  /** The relay's table is what the calls made so far leave in it, whatever else the coordinator did in between. */
  lemma {:induction false} RunSees(env: Environment, s: State, events: seq<Event>, past: seq<Relay.Call>)
    requires Sound(s) && Legal(env, s, events) && s.seen == Relay.SeenAfter(Relay.TTL_SECONDS, past)
    ensures After(env, s, events).seen == Relay.SeenAfter(Relay.TTL_SECONDS, past + CallsOf(events))
    decreases |events|
  {
    if events == [] {
      assert past + [] == past;
    } else {
      var e := events[0];
      StepSees(env, s, e);
      if e.Submit? {
        var c := CallOf(e.q, e.generated, e.reading);
        SeenGrows(past, c);
        RunSees(env, Step(env, s, e), events[1..], past + [c]);
        CallsCons(events, past);
      } else {
        RunSees(env, Step(env, s, e), events[1..], past);
        assert CallsOf(events) == CallsOf(events[1..]);
      }
    }
  }

  /** Event i of a run from s is a dispatch that reaches a node. */
  ghost predicate DispatchedAt(env: Environment, s: State, events: seq<Event>, i: nat)
    requires Sound(s)
  {
    && i < |events| && events[i].Submit? && Legal(env, s, events[..i])
    && Dispatch(env, After(env, s, events[..i]), events[i].q, events[i].generated, events[i].reading).1.Dispatched?
  }

  lemma CallsUpTo(events: seq<Event>, i: nat, j: nat) returns (between: seq<Relay.Call>)
    requires i < j < |events| && events[i].Submit? && events[j].Submit?
    ensures CallsOf(events[..j]) == CallsOf(events[..i]) + [CallAt(events, i)] + between
    ensures CallsOf(events[..j + 1]) == CallsOf(events[..j]) + [CallAt(events, j)]
  {
    between := CallsOf(events[i + 1..j]);
    CallsSplit(events[..i], [events[i]]);
    CallsSplit(events[..i] + [events[i]], events[i + 1..j]);
    CallsSplit(events[..j], [events[j]]);
    assert events[..j] == events[..i] + [events[i]] + events[i + 1..j];
    assert events[..j + 1] == events[..j] + [events[j]];
    assert forall e: Event :: e.Submit? ==> CallsOf([e]) == [CallOf(e.q, e.generated, e.reading)];
  }

  /** A dispatch that reaches a node is accepted by the relay at its place among all calls. */
  lemma DispatchedIsAccepted(env: Environment, totalLayers: int, events: seq<Event>, i: nat, rest: seq<Relay.Call>)
    requires DispatchedAt(env, Initial(totalLayers), events, i)
    ensures Relay.Accepted(Relay.TTL_SECONDS, CallsOf(events[..i]) + [CallAt(events, i)] + rest, |CallsOf(events[..i])|)
  {
    var past, e := CallsOf(events[..i]), events[i];
    RunSees(env, Initial(totalLayers), events[..i], []);
    assert [] + past == past;
    DispatchedIff(env, After(env, Initial(totalLayers), events[..i]), e.q, e.generated, e.reading);
    AcceptedBetween(past, CallAt(events, i), rest);
  }

  lemma AcceptedBetween(past: seq<Relay.Call>, c: Relay.Call, rest: seq<Relay.Call>)
    requires !Relay.Remembered(Relay.SeenAfter(Relay.TTL_SECONDS, past), Relay.TTL_SECONDS, c)
    ensures Relay.Accepted(Relay.TTL_SECONDS, past + [c] + rest, |past|)
  {
    assert (past + [c] + rest)[..|past|] == past;
  }

  lemma TwoAccepted(a: seq<Relay.Call>, x: Relay.Call, b: seq<Relay.Call>, y: Relay.Call)
    requires x.id == y.id && Relay.Monotone(a + [x] + b + [y])
    requires Relay.Accepted(Relay.TTL_SECONDS, a + [x] + (b + [y]), |a|)
    requires Relay.Accepted(Relay.TTL_SECONDS, (a + [x] + b) + [y] + [], |a + [x] + b|)
    ensures y.now - x.stamp > Relay.TTL_SECONDS
  {
    var all := a + [x] + b + [y];
    assert all == a + [x] + (b + [y]) == (a + [x] + b) + [y] + [];
    assert all[|a|] == x && all[|a + [x] + b|] == y;
    Relay.AtMostOncePerWindow(Relay.TTL_SECONDS, all, |a|, |a + [x] + b|);
  }

  lemma AcceptedFarApart(events: seq<Event>, i: nat, j: nat)
    requires i < j < |events| && events[i].Submit? && events[j].Submit? && CallAt(events, i).id == CallAt(events, j).id
    requires Relay.Monotone(CallsOf(events))
    requires forall rest ::
      Relay.Accepted(Relay.TTL_SECONDS, CallsOf(events[..i]) + [CallAt(events, i)] + rest, |CallsOf(events[..i])|)
    requires forall rest ::
      Relay.Accepted(Relay.TTL_SECONDS, CallsOf(events[..j]) + [CallAt(events, j)] + rest, |CallsOf(events[..j])|)
    ensures events[j].reading.now - events[i].reading.stamp > Relay.TTL_SECONDS
  {
    var b := CallsUpTo(events, i, j);
    CallsPrefix(events, j + 1);
    TwoAccepted(CallsOf(events[..i]), CallAt(events, i), b, CallAt(events, j));
  }

  /** Two dispatches of one request id, in any run under a clock that does not go back, are more than the window
      apart. */
  lemma AtMostOncePerWindow(env: Environment, totalLayers: int, events: seq<Event>, i: nat, j: nat)
    requires i < j && DispatchedAt(env, Initial(totalLayers), events, i)
      && DispatchedAt(env, Initial(totalLayers), events, j)
    requires CallAt(events, i).id == CallAt(events, j).id
    requires Relay.Monotone(CallsOf(events))
    ensures events[j].reading.now - events[i].reading.stamp > Relay.TTL_SECONDS
  {
    forall rest ensures
      Relay.Accepted(Relay.TTL_SECONDS, CallsOf(events[..i]) + [CallAt(events, i)] + rest, |CallsOf(events[..i])|)
    {
      DispatchedIsAccepted(env, totalLayers, events, i, rest);
    }
    forall rest ensures
      Relay.Accepted(Relay.TTL_SECONDS, CallsOf(events[..j]) + [CallAt(events, j)] + rest, |CallsOf(events[..j])|)
    {
      DispatchedIsAccepted(env, totalLayers, events, j, rest);
    }
    AcceptedFarApart(events, i, j);
  }

  /** Event i of a run from s appends receipt k. */
  ghost predicate Appends(env: Environment, s: State, events: seq<Event>, i: nat, k: nat)
    requires Sound(s)
  {
    DispatchedAt(env, s, events, i) && |After(env, s, events[..i]).chain| == k
  }

  /** Only a dispatch that reaches a node appends a receipt: one, for its request. */
  lemma StepAppends(env: Environment, s: State, e: Event)
    requires Sound(s) && Possible(s, e)
    ensures |Step(env, s, e).chain| <= |s.chain| + 1
    ensures
      |s.chain| < |Step(env, s, e).chain| ==>
        && e.Submit? && Dispatch(env, s, e.q, e.generated, e.reading).1.Dispatched?
        && Step(env, s, e).chain[|s.chain|].receipt.body.jobId == CallOf(e.q, e.generated, e.reading).id
  {
    match e
    case Submit(q, generated, r) => DispatchedIff(env, s, q, generated, r);
    case _ =>
  }

  lemma FirstAppends(env: Environment, s: State, events: seq<Event>)
    requires Sound(s) && Legal(env, s, events) && events != []
    requires |s.chain| < |Step(env, s, events[0]).chain|
    ensures Appends(env, s, events, 0, |s.chain|)
    ensures Step(env, s, events[0]).chain[|s.chain|].receipt.body.jobId == CallAt(events, 0).id
  {
    assert events[..0] == [];
    StepAppends(env, s, events[0]);
  }

  /** A run of j + 1 events is its first step and then a run of j events. */
  lemma RunLater(env: Environment, s: State, events: seq<Event>, j: nat)
    requires j < |events| && Sound(s) && Possible(s, events[0])
    ensures Sound(Step(env, s, events[0]))
    ensures Legal(env, s, events[..j + 1]) <==> Legal(env, Step(env, s, events[0]), events[1..][..j])
    ensures Legal(env, s, events[..j + 1])
      ==> After(env, s, events[..j + 1]) == After(env, Step(env, s, events[0]), events[1..][..j])
  {
    assert events[..j + 1][1..] == events[1..][..j];
  }

  lemma AppendsLater(env: Environment, s: State, events: seq<Event>, j: nat, k: nat)
    requires Sound(s) && Legal(env, s, events) && events != []
    requires Appends(env, Step(env, s, events[0]), events[1..], j, k)
    ensures Appends(env, s, events, j + 1, k)
  {
    RunLater(env, s, events, j);
  }

  /** Every receipt of a run was appended by a dispatch of the run, for the request it names. */
  lemma {:induction false} ReceiptSource(env: Environment, s: State, events: seq<Event>, k: nat) returns (i: nat)
    requires Sound(s) && Legal(env, s, events) && |s.chain| <= k < |After(env, s, events).chain|
    ensures Appends(env, s, events, i, k)
    ensures After(env, s, events).chain[k].receipt.body.jobId == CallAt(events, i).id
    decreases |events|
  {
    var t := Step(env, s, events[0]);
    StepAppends(env, s, events[0]);
    RunGrows(env, t, events[1..]);
    if k < |t.chain| {
      i := 0;
      FirstAppends(env, s, events);
    } else {
      var j := ReceiptSource(env, t, events[1..], k);
      i := j + 1;
      AppendsLater(env, s, events, j, k);
    }
  }

  lemma {:induction false} ChainGrows(env: Environment, s: State, events: seq<Event>, i: nat, j: nat)
    requires Sound(s) && i <= j <= |events| && Legal(env, s, events[..i]) && Legal(env, s, events[..j])
    ensures |After(env, s, events[..i]).chain| <= |After(env, s, events[..j]).chain|
  {
    assert events[..j] == events[..i] + events[i..j];
    LegalSplits(env, s, events[..i], events[i..j]);
    RunGrows(env, After(env, s, events[..i]), events[i..j]);
  }

  lemma AppendsInOrder(env: Environment, s: State, events: seq<Event>, i: nat, k: nat, j: nat, l: nat)
    requires Sound(s) && Appends(env, s, events, i, k) && Appends(env, s, events, j, l) && k < l
    ensures i < j
  {
    if j <= i { ChainGrows(env, s, events, j, i); }
  }

  /** Two receipts for one request id were appended by dispatches more than the window apart. */
  lemma ReceiptsFarApart(env: Environment, totalLayers: int, events: seq<Event>, k: nat, l: nat)
    returns (i: nat, j: nat)
    requires Legal(env, Initial(totalLayers), events) && Relay.Monotone(CallsOf(events))
    requires
      var chain := After(env, Initial(totalLayers), events).chain;
      k < l < |chain| && chain[k].receipt.body.jobId == chain[l].receipt.body.jobId
    ensures Appends(env, Initial(totalLayers), events, i, k) && Appends(env, Initial(totalLayers), events, j, l)
    ensures events[j].reading.now - events[i].reading.stamp > Relay.TTL_SECONDS
  {
    i := ReceiptSource(env, Initial(totalLayers), events, k);
    j := ReceiptSource(env, Initial(totalLayers), events, l);
    AppendsInOrder(env, Initial(totalLayers), events, i, k, j, l);
    AtMostOncePerWindow(env, totalLayers, events, i, j);
  }

  lemma CallsPrefix(events: seq<Event>, j: nat)
    requires j <= |events| && Relay.Monotone(CallsOf(events))
    ensures Relay.Monotone(CallsOf(events[..j]))
  {
    assert events == events[..j] + events[j..];
    CallsSplit(events[..j], events[j..]);
    MonotonePrefix(CallsOf(events[..j]), CallsOf(events[j..]));
  }

  lemma MonotonePrefix(a: seq<Relay.Call>, b: seq<Relay.Call>)
    requires Relay.Monotone(a + b)
    ensures Relay.Monotone(a)
  {
    forall i | 0 <= i < |a| ensures a[i].now <= a[i].stamp { assert (a + b)[i] == a[i]; }
    forall i, j | 0 <= i < j < |a| ensures a[i].stamp <= a[j].now { assert (a + b)[i] == a[i] && (a + b)[j] == a[j]; }
  }

  // ---- fair shares ----

  function UpSet(s: State): set<string> { set n | n in s.tiles && s.tiles[n].status == UP }

  /** Along the run the same nodes stay up, nobody joins and no job completes. */
  ghost predicate SteadyUp(env: Environment, s: State, events: seq<Event>)
    requires Sound(s) && Legal(env, s, events)
    decreases |events|
  {
    events != [] ==>
      && !events[0].Join? && !events[0].Complete?
      && UpSet(Step(env, s, events[0])) == UpSet(s) && SteadyUp(env, Step(env, s, events[0]), events[1..])
  }

  /** The nodes that are up share all jobs given since the books stood at `start` receipts. */
  ghost predicate Shared(s: State, start: int)
    requires Sound(s)
  {
    LeastConnections.Balanced(UpSet(s), s.connections)
      && LeastConnections.Sum(UpSet(s), s.connections) == |s.chain| - start
  }

  lemma ServedOpens(env: Environment, s: State, x: string, entry: KhipuLedger.Entry)
    requires Sound(s) && x in UpSet(s)
    ensures
      var t := Served(env, s, x, entry);
      UpSet(t) == UpSet(s) && t.connections == s.connections[x := s.connections[x] + 1] && |t.chain| == |s.chain| + 1
  {
  }

  lemma OneMoreShared(s: State, t: State, x: string, start: int)
    requires Sound(s) && Sound(t) && Shared(s, start) && x in UpSet(s)
    requires forall n :: n in UpSet(s) ==> s.connections[x] <= s.connections[n]
    requires UpSet(t) == UpSet(s) && t.connections == s.connections[x := s.connections[x] + 1]
    requires |t.chain| == |s.chain| + 1
    ensures Shared(t, start)
  {
    LeastConnections.ServingKeepsBalance(UpSet(s), s.connections, x);
  }

  lemma ServingKeepsShared(env: Environment, s: State, x: string, entry: KhipuLedger.Entry, start: int)
    requires Sound(s) && Shared(s, start) && x in UpSet(s)
    requires forall n :: n in UpSet(s) ==> s.connections[x] <= s.connections[n]
    ensures Sound(Served(env, s, x, entry)) && Shared(Served(env, s, x, entry), start)
  {
    ServedKeepsSound(env, s, x, entry);
    ServedOpens(env, s, x, entry);
    OneMoreShared(s, Served(env, s, x, entry), x, start);
  }

  lemma DispatchKeepsShared(env: Environment, s: State, q: Request, generated: string, r: Reading, start: int)
    requires Sound(s) && Shared(s, start)
    ensures Sound(Dispatch(env, s, q, generated, r).0) && Shared(Dispatch(env, s, q, generated, r).0, start)
  {
    var o := Dispatch(env, s, q, generated, r).1;
    var s1 := s.(seen := Relay.Record(s.seen, Relay.TTL_SECONDS, CallOf(q, generated, r)));
    DispatchServes(env, s, q, generated, r);
    assert UpSet(s1) == UpSet(s);
    if o.Dispatched? { ServingKeepsShared(env, s1, o.nodeId, o.entry, start); }
  }

  lemma StepKeepsShared(env: Environment, s: State, e: Event, start: int)
    requires Sound(s) && Shared(s, start) && Possible(s, e) && !e.Join? && !e.Complete?
    requires UpSet(Step(env, s, e)) == UpSet(s)
    ensures Shared(Step(env, s, e), start)
  {
    match e
    case Submit(q, generated, r) => DispatchKeepsShared(env, s, q, generated, r, start);
    case _ =>
  }

  lemma {:induction false} RunKeepsShared(env: Environment, s: State, events: seq<Event>, start: int)
    requires Sound(s) && Shared(s, start) && Legal(env, s, events) && SteadyUp(env, s, events)
    ensures Shared(After(env, s, events), start) && UpSet(After(env, s, events)) == UpSet(s)
    decreases |events|
  {
    if events != [] {
      StepKeepsShared(env, s, events[0], start);
      RunKeepsShared(env, Step(env, s, events[0]), events[1..], start);
    }
  }

  lemma {:induction false} NoneOpen(group: set<string>, connections: map<string, int>)
    requires group <= connections.Keys && forall n :: n in group ==> connections[n] == 0
    ensures LeastConnections.Sum(group, connections) == 0
    decreases |group|
  {
    if group != {} {
      var n :| n in group;
      NoneOpen(group - {n}, connections);
      LeastConnections.SumWithout(group, connections, n);
    }
  }

  /** While the same m nodes are up and no job completes, n dispatches give each of them n / m jobs, rounded down or
      up, whatever the seeded tie-break does. */
  lemma FairShares(env: Environment, s: State, events: seq<Event>, x: string)
    requires Sound(s) && Legal(env, s, events) && SteadyUp(env, s, events)
    requires forall n :: n in UpSet(s) ==> Count(s.connections, n) == 0
    requires x in UpSet(s)
    ensures
      var t := After(env, s, events);
      LeastConnections.EvenShare(Count(t.connections, x), |t.chain| - |s.chain|, |UpSet(s)|)
  {
    NoneOpen(UpSet(s), s.connections);
    RunKeepsShared(env, s, events, |s.chain|);
    SharesEven(s, After(env, s, events), x);
  }

  lemma SharesEven(s: State, t: State, x: string)
    requires Sound(t) && Shared(t, |s.chain|) && UpSet(t) == UpSet(s) && x in UpSet(s)
    ensures LeastConnections.EvenShare(Count(t.connections, x), |t.chain| - |s.chain|, |UpSet(s)|)
  {
    LeastConnections.BalancedShares(UpSet(t), t.connections, x);
  }

  // ---- the first node ----

  ghost predicate WithinModel(s: State)
  {
    forall n :: n in s.tiles ==> s.tiles[n].layerEnd <= s.totalLayers
  }

  lemma JoinKeepsWithin(env: Environment, s: State, e: Event)
    requires Sound(s) && WithinModel(s) && e.Join? && Possible(s, e) && s.totalLayers >= 0
    ensures WithinModel(Step(env, s, e))
  {
    LayerAssignment.AssignmentUnique(s.totalLayers, Shares(TileList(s)), e.hw.vram, e.start, e.end, e.start, e.end);
  }

  /** Only a join changes which layers a node serves. */
  ghost predicate SameLayers(s: State, t: State, n: string)
  {
    n in s.tiles && n in t.tiles && s.tiles[n].layerStart == t.tiles[n].layerStart
      && s.tiles[n].layerEnd == t.tiles[n].layerEnd
  }

  lemma StepKeepsLayers(env: Environment, s: State, e: Event, n: string)
    requires Sound(s) && Possible(s, e) && n in s.tiles && (e.Join? ==> env.nodeIdOf(e.hw) != n)
    ensures SameLayers(s, Step(env, s, e), n)
  {
    match e
    case Submit(q, generated, r) => DispatchKeepsFormation(env, s, q, generated, r);
    case _ =>
  }

  lemma StepKeepsWithin(env: Environment, s: State, e: Event)
    requires Sound(s) && Possible(s, e) && WithinModel(s) && s.totalLayers >= 0
    ensures WithinModel(Step(env, s, e)) && Step(env, s, e).totalLayers == s.totalLayers
  {
    match e
    case Join(_, _, _, _) => JoinKeepsWithin(env, s, e);
    case Submit(q, generated, r) => DispatchServes(env, s, q, generated, r);
    case _ =>
  }

  lemma {:induction false} RunKeepsSpan(env: Environment, s: State, events: seq<Event>, n: string)
    requires Sound(s) && Legal(env, s, events) && n in s.tiles && WithinModel(s) && s.totalLayers >= 0
    requires forall i :: 0 <= i < |events| && events[i].Join? ==> env.nodeIdOf(events[i].hw) != n
    ensures SameLayers(s, After(env, s, events), n) && WithinModel(After(env, s, events))
    ensures After(env, s, events).totalLayers == s.totalLayers
    decreases |events|
  {
    if events != [] {
      StepKeepsLayers(env, s, events[0], n);
      StepKeepsWithin(env, s, events[0]);
      RunKeepsSpan(env, Step(env, s, events[0]), events[1..], n);
    }
  }

  /** A node that is up and serves the whole model makes the plan a single covering stage. */
  lemma FullSpanPlan(s: State, n: string, stages: seq<NodeTile>, covered: bool)
    requires Sound(s) && WithinModel(s) && s.totalLayers >= 1 && Planned(s, stages, covered)
    requires n in s.tiles && s.tiles[n].status == UP && s.tiles[n].layerStart == 0
      && s.tiles[n].layerEnd == s.totalLayers
    ensures covered && |stages| == 1 && stages[0].layerStart == 0 && stages[0].layerEnd == s.totalLayers
  {
    var list, total := TileList(s), s.totalLayers;
    var up := Filter(PipelinePlan.IsUp, list);
    assert n in Elements(s.order);
    var i :| 0 <= i < |s.order| && s.order[i] == n;
    assert list[i] == s.tiles[n];
    Tiles.FilterExact(PipelinePlan.IsUp, list, s.tiles[n]);
    forall layer | 0 <= layer < total ensures PipelinePlan.Serves(up, layer) {
      assert s.tiles[n] in up && PipelinePlan.Reaches(s.tiles[n], layer);
    }
    PipelinePlan.CoveredExactly(up, total, stages, covered);
    assert PipelinePlan.GreedyStage(up, total, stages, 0);
    assert PipelinePlan.Reaches(s.tiles[n], 0);
    TileOfState(s, stages[0]);
    assert |stages| > 1 ==> PipelinePlan.GreedyStage(up, total, stages, 1);
  }

  lemma TileOfState(s: State, t: NodeTile)
    requires Sound(s) && t in TileList(s)
    ensures t.nodeId in s.tiles && s.tiles[t.nodeId] == t
  {
    var i :| 0 <= i < |TileList(s)| && TileList(s)[i] == t;
    assert s.order[i] in s.tiles;
  }

  /** While the first node to join stays up and does not join again, every plan is one stage that spans the model. */
  lemma FirstNodePlan(env: Environment, total: int, events: seq<Event>, stages: seq<NodeTile>, covered: bool)
    requires total >= 1 && events != [] && events[0].Join? && Legal(env, Initial(total), events)
    requires forall i :: 1 <= i < |events| && events[i].Join? ==>
      env.nodeIdOf(events[i].hw) != env.nodeIdOf(events[0].hw)
    requires
      var s, id := After(env, Initial(total), events), env.nodeIdOf(events[0].hw);
      (id in s.tiles ==> s.tiles[id].status == UP) && Planned(s, stages, covered)
    ensures covered && |stages| == 1 && stages[0].layerStart == 0 && stages[0].layerEnd == total
  {
    FirstJoin(env, total, events[0]);
    SpanPlan(env, Step(env, Initial(total), events[0]), events[1..], env.nodeIdOf(events[0].hw), stages, covered);
  }

  lemma SpanPlan(env: Environment, s: State, events: seq<Event>, n: string, stages: seq<NodeTile>, covered: bool)
    requires Sound(s) && Legal(env, s, events) && n in s.tiles && WithinModel(s) && s.totalLayers >= 1
    requires s.tiles[n].layerStart == 0 && s.tiles[n].layerEnd == s.totalLayers
    requires forall i :: 0 <= i < |events| && events[i].Join? ==> env.nodeIdOf(events[i].hw) != n
    requires Planned(After(env, s, events), stages, covered)
    requires n in After(env, s, events).tiles ==> After(env, s, events).tiles[n].status == UP
    ensures covered && |stages| == 1 && stages[0].layerStart == 0 && stages[0].layerEnd == s.totalLayers
  {
    RunKeepsSpan(env, s, events, n);
    FullSpanPlan(After(env, s, events), n, stages, covered);
  }

  lemma FirstJoin(env: Environment, total: int, first: Event)
    requires total >= 1 && first.Join? && Possible(Initial(total), first)
    ensures
      var s, id := Step(env, Initial(total), first), env.nodeIdOf(first.hw);
      && s.tiles.Keys == {id} && s.tiles[id].layerStart == 0 && s.tiles[id].layerEnd == total == s.totalLayers
  {
    assert Shares(TileList(Initial(total))) == [];
    LayerAssignment.FirstNodeSpansModel(total, first.hw.vram, first.start, first.end);
  }
}
