// Whole runs of the harness: nodes join, write and gossip in any interleaving, and others enroll and write beside them.
module HarnessRuns {
  import opened Prelude
  import opened Crdt
  import opened Receipts
  import opened Enrollment
  import opened Node
  import opened Harness

  datatype Mesh = Mesh(docId: string, formationKey: bytes, gateway: Gateway, nodes: seq<NodeState>, log: seq<Entry>)

  datatype Action =
    | Add(key: bytes, timestamp: string, vendor: string, now: real)
    | Put(k: nat, itemKey: string, value: Value, transitionClass: string, stamp: int, now: real)
    | OutsiderEnrolls(request: Request, now: real)
    | OutsiderPuts(entry: Entry)
    | Revokes(nodeId: string)
    | Gossips(order: seq<Delivery>, clock: Ticks)

  /** What the methods of the harness class and of its gateway do to the mesh. An outsider is a node that enrolled with
      the gateway without being listed by the harness. */
  ghost predicate Next(u: Suite, m: Mesh, a: Action, m': Mesh)
    requires AllSane(u, m.nodes)
  {
    match a
    case Add(key, timestamp, vendor, now) =>
      var r := Enroll(u, NewNode(u, m.docId, key), m.gateway, m.formationKey, timestamp, DOCTRINE_VERSION,
                      KERNEL_COMMIT, SLSA_LEVEL, vendor, now);
      m' == m.(gateway := r.1, nodes := if r.0.enrolled then m.nodes + [r.0] else m.nodes)
    case Put(k, itemKey, value, transitionClass, stamp, now) =>
      && k < |m.nodes|
      && var w := Write(u, m.nodes[k], m.gateway, itemKey, value, transitionClass, false, stamp, now);
      m' == m.(nodes := m.nodes[k := w.0],
               log := m.log + if w.1.Success? then [Entry(m.nodes[k].nodeId, w.1.value)] else [])
    case OutsiderEnrolls(request, now) => m' == m.(gateway := Enrolled(u, m.gateway, request, now))
    case OutsiderPuts(e) =>
      && e.origin in m.gateway.certStore && (forall n :: 0 <= n < |m.nodes| ==> m.nodes[n].nodeId != e.origin)
      && e.record.body.docId == m.docId && e.record.body.nodeId == e.origin
      && m' == m.(log := m.log + [e])
    case Revokes(nodeId) => m' == m.(gateway := Revoked(m.gateway, nodeId))
    case Gossips(order, clock) =>
      && DeliveryOrder(m.nodes, m.log, order)
      && m' == m.(nodes := DeliverAll(u, m.nodes, m.gateway, order, clock))
  }

  /** A write whose transition class is unknown: it fails, but its operation stays with the writer. */
  predicate FailedPut(a: Action) { a.Put? && a.transitionClass !in TRANSITION_CLASSES }

  /** A run of the harness from an empty mesh. */
  ghost predicate IsRun(u: Suite, meshes: seq<Mesh>, actions: seq<Action>)
  {
    && |meshes| == |actions| + 1
    && meshes[0].gateway.certStore == map[] && meshes[0].nodes == [] && meshes[0].log == []
    && forall i :: 0 <= i < |actions| ==> StepAt(u, meshes, actions, i)
  }

  ghost predicate StepAt(u: Suite, meshes: seq<Mesh>, actions: seq<Action>, i: nat)
    requires i < |actions| < |meshes|
  {
    AllSane(u, meshes[i].nodes) && Next(u, meshes[i], actions[i], meshes[i + 1])
  }

  /** The failed writes after one more action. */
  function UnloggedAfter(m: Mesh, a: Action, unlogged: set<Body>): set<Body>
  {
    if FailedPut(a) && a.k < |m.nodes| then unlogged + {WrittenBody(m.nodes[a.k], a.itemKey, a.value, false)}
    else unlogged
  }

  /** The operations of the failed writes among the first i actions. */
  function Unlogged(meshes: seq<Mesh>, actions: seq<Action>, i: nat): set<Body>
    requires i <= |actions| < |meshes|
  {
    if i == 0 then {} else UnloggedAfter(meshes[i - 1], actions[i - 1], Unlogged(meshes, actions, i - 1))
  }

  /** Every operation there is after the first i actions. */
  function AllBodies(meshes: seq<Mesh>, actions: seq<Action>, i: nat): set<Body>
    requires i <= |actions| < |meshes|
  {
    LogBodies(meshes[i].log) + Unlogged(meshes, actions, i)
  }

  /** The failed writes of one node. */
  function Own(unlogged: set<Body>, nodeId: string): set<Body> { set b | b in unlogged && b.nodeId == nodeId }

  /** Nodes are enrolled under distinct ids; each holds nothing but logged operations and its own failed writes, and all
      of the latter; nobody else's id is on a failed write, and no failed write is logged. */
  ghost predicate Coherent(u: Suite, m: Mesh, unlogged: set<Body>)
  {
    && Logged(u, m.docId, m.nodes, m.log)
    && (forall n :: 0 <= n < |m.nodes| ==> m.nodes[n].enrolled && m.nodes[n].nodeId in m.gateway.certStore)
    && (forall i, j :: 0 <= i < j < |m.nodes| ==> m.nodes[i].nodeId != m.nodes[j].nodeId)
    && (forall n :: 0 <= n < |m.nodes| ==> HoldsItsOwn(m.nodes[n], m.log, unlogged))
    && (forall e :: e in m.log ==> e.origin in m.gateway.certStore && e.record.body.nodeId == e.origin)
    && (forall b :: b in unlogged ==> b !in LogBodies(m.log) && Listed(m.nodes, b.nodeId))
  }

  ghost predicate HoldsItsOwn(s: NodeState, log: seq<Entry>, unlogged: set<Body>)
  {
    Own(unlogged, s.nodeId) <= Bodies(s.ops) <= LogBodies(log) + Own(unlogged, s.nodeId)
  }

  ghost predicate Listed(nodes: seq<NodeState>, nodeId: string)
  {
    exists n :: 0 <= n < |nodes| && nodes[n].nodeId == nodeId
  }

  // ---- each action keeps the mesh coherent ----

  lemma AddKeepsCoherent(u: Suite, m: Mesh, a: Action, m': Mesh, unlogged: set<Body>)
    requires Coherent(u, m, unlogged) && a.Add? && Next(u, m, a, m')
    ensures Coherent(u, m', unlogged)
  {
    var fresh_ := NewNode(u, m.docId, a.key);
    if |m'.nodes| > |m.nodes| {
      assert fresh_.nodeId !in m.gateway.certStore;
      forall b | b in unlogged ensures b.nodeId != fresh_.nodeId { assert Listed(m.nodes, b.nodeId); }
      assert Own(unlogged, fresh_.nodeId) == {};
      ListedStays(m.nodes, m'.nodes);
    }
  }

  lemma ListedStays(nodes: seq<NodeState>, nodes': seq<NodeState>)
    requires |nodes| <= |nodes'| && forall n :: 0 <= n < |nodes| ==> nodes'[n].nodeId == nodes[n].nodeId
    ensures forall id :: Listed(nodes, id) ==> Listed(nodes', id)
  {
    forall id | Listed(nodes, id) ensures Listed(nodes', id) {
      var n :| 0 <= n < |nodes| && nodes[n].nodeId == id;
      assert nodes'[n].nodeId == id;
    }
  }

  lemma GatewayKeepsCoherent(u: Suite, m: Mesh, a: Action, m': Mesh, unlogged: set<Body>)
    requires Coherent(u, m, unlogged) && (a.OutsiderEnrolls? || a.Revokes?) && Next(u, m, a, m')
    ensures Coherent(u, m', unlogged)
  {
  }

  lemma LogBodiesExtend(log: seq<Entry>, e: Entry)
    ensures LogBodies(log + [e]) == LogBodies(log) + {e.record.body}
  {
    forall b | b in LogBodies(log) ensures b in LogBodies(log + [e]) {
      var x :| x in log && x.record.body == b;
      assert x in log + [e];
    }
    assert e in log + [e];
  }

  lemma OutsiderKeepsCoherent(u: Suite, m: Mesh, a: Action, m': Mesh, unlogged: set<Body>)
    requires Coherent(u, m, unlogged) && a.OutsiderPuts? && Next(u, m, a, m')
    ensures Coherent(u, m', unlogged)
  {
    LogBodiesExtend(m.log, a.entry);
    forall b | b in unlogged ensures b != a.entry.record.body { assert Listed(m.nodes, b.nodeId); }
  }

  /** What a write gives its node. */
  ghost predicate Wrote(u: Suite, s: NodeState, s': NodeState, body: Body)
  {
    && Sane(u, s') && s'.docId == s.docId == body.docId && s'.enrolled && s'.nodeId == s.nodeId == body.nodeId
    && Bodies(s'.ops) == Bodies(s.ops) + {body} && body !in Bodies(s.ops)
  }

  lemma PutWrites(u: Suite, m: Mesh, a: Action, m': Mesh, unlogged: set<Body>)
    requires Coherent(u, m, unlogged) && a.Put? && Next(u, m, a, m')
    requires Injective(u.opId, Bodies(m.nodes[a.k].ops) + {WrittenBody(m.nodes[a.k], a.itemKey, a.value, false)})
    ensures Wrote(u, m.nodes[a.k], m'.nodes[a.k], WrittenBody(m.nodes[a.k], a.itemKey, a.value, false))
  {
    var s := m.nodes[a.k];
    WriteKeepsSane(u, s, m.gateway, a.itemKey, a.value, a.transitionClass, false, a.stamp, a.now);
    WriteBodies(u, s, m.gateway, a.itemKey, a.value, a.transitionClass, false, a.stamp, a.now);
    assert forall b :: b in Bodies(s.ops) ==> b.lamport <= s.lamport;
  }

  /** A body that its writer does not hold is neither logged nor the body of a failed write. */
  lemma WrittenIsNew(u: Suite, m: Mesh, unlogged: set<Body>, k: nat, body: Body)
    requires Coherent(u, m, unlogged) && k < |m.nodes| && body.nodeId == m.nodes[k].nodeId
      && body !in Bodies(m.nodes[k].ops)
    ensures body !in LogBodies(m.log) && body !in unlogged
  {
    assert HoldsItsOwn(m.nodes[k], m.log, unlogged);
    forall e | e in m.log && e.record.body.nodeId == body.nodeId ensures e.record.body in Bodies(m.nodes[k].ops) {}
  }

  lemma LoggedWriteKeepsCoherent(u: Suite, m: Mesh, unlogged: set<Body>, k: nat, s': NodeState, e: Entry)
    requires Coherent(u, m, unlogged) && k < |m.nodes| && Wrote(u, m.nodes[k], s', e.record.body)
      && e.origin == s'.nodeId
    ensures Coherent(u, m.(nodes := m.nodes[k := s'], log := m.log + [e]), unlogged)
  {
    LogBodiesExtend(m.log, e);
    WrittenIsNew(u, m, unlogged, k, e.record.body);
    var nodes, log := m.nodes[k := s'], m.log + [e];
    ListedStays(m.nodes, nodes);
    forall x, n | x in log && 0 <= n < |nodes| && nodes[n].nodeId == x.origin
      ensures x.record.body in Bodies(nodes[n].ops)
    {
      if x == e { assert n == k; } else { assert x in m.log; }
    }
    forall n | 0 <= n < |nodes| ensures HoldsItsOwn(nodes[n], log, unlogged) {
      assert HoldsItsOwn(m.nodes[n], m.log, unlogged);
    }
  }

  lemma FailedWriteKeepsCoherent(u: Suite, m: Mesh, unlogged: set<Body>, k: nat, s': NodeState, body: Body)
    requires Coherent(u, m, unlogged) && k < |m.nodes| && Wrote(u, m.nodes[k], s', body)
    ensures Coherent(u, m.(nodes := m.nodes[k := s']), unlogged + {body})
  {
    WrittenIsNew(u, m, unlogged, k, body);
    var nodes := m.nodes[k := s'];
    ListedStays(m.nodes, nodes);
    assert nodes[k].nodeId == body.nodeId;
    forall n | 0 <= n < |nodes| ensures HoldsItsOwn(nodes[n], m.log, unlogged + {body}) {
      assert HoldsItsOwn(m.nodes[n], m.log, unlogged);
      assert Own(unlogged + {body}, nodes[n].nodeId) == Own(unlogged, nodes[n].nodeId) + if n == k then {body} else {};
    }
  }

  lemma GossipKeepsCoherent(u: Suite, m: Mesh, a: Action, m': Mesh, unlogged: set<Body>)
    requires Coherent(u, m, unlogged) && a.Gossips? && Next(u, m, a, m')
    requires Injective(u.opId, LogBodies(m.log) + unlogged)
    ensures Coherent(u, m', unlogged) && m'.log == m.log && |m'.nodes| == |m.nodes|
    ensures forall n :: 0 <= n < |m'.nodes| ==>
      m'.nodes[n].nodeId == m.nodes[n].nodeId && Bodies(m'.nodes[n].ops) == Bodies(m.nodes[n].ops) + LogBodies(m.log)
  {
    forall n | 0 <= n < |m.nodes|
      ensures Bodies(m'.nodes[n].ops) == Bodies(m.nodes[n].ops) + LogBodies(m.log)
      ensures m'.nodes[n].docId == m.docId && m'.nodes[n].nodeId == m.nodes[n].nodeId && m'.nodes[n].enrolled
    {
      EverythingKnown(m, unlogged);
      GossipDelivers(u, m.docId, m.nodes, m.gateway, m.log, a.order, a.clock, LogBodies(m.log) + unlogged, n);
      DeliveryKeepsIdentity(u, m.nodes, m.gateway, a.order, a.clock, n);
    }
    AfterGossip(u, m, m', unlogged);
  }

  lemma EverythingKnown(m: Mesh, unlogged: set<Body>)
    requires forall n :: 0 <= n < |m.nodes| ==> HoldsItsOwn(m.nodes[n], m.log, unlogged)
    ensures Within(m.nodes, m.log, LogBodies(m.log) + unlogged)
  {
    forall n | 0 <= n < |m.nodes| ensures Bodies(m.nodes[n].ops) <= LogBodies(m.log) + unlogged {
      assert HoldsItsOwn(m.nodes[n], m.log, unlogged);
    }
  }

  lemma AfterGossip(u: Suite, m: Mesh, m': Mesh, unlogged: set<Body>)
    requires Coherent(u, m, unlogged) && AllSane(u, m'.nodes) && m' == m.(nodes := m'.nodes) && |m'.nodes| == |m.nodes|
    requires forall n :: 0 <= n < |m.nodes| ==>
      && Bodies(m'.nodes[n].ops) == Bodies(m.nodes[n].ops) + LogBodies(m.log)
      && m'.nodes[n].docId == m.docId && m'.nodes[n].nodeId == m.nodes[n].nodeId && m'.nodes[n].enrolled
    ensures Coherent(u, m', unlogged)
  {
    ListedStays(m.nodes, m'.nodes);
    forall n | 0 <= n < |m'.nodes| ensures HoldsItsOwn(m'.nodes[n], m.log, unlogged) {
      assert HoldsItsOwn(m.nodes[n], m.log, unlogged);
    }
  }

  lemma {:induction false} DeliveryKeepsIdentity(u: Suite, nodes: seq<NodeState>, g: Gateway, ds: seq<Delivery>,
                                                 clock: Ticks, n: nat)
    requires AllSane(u, nodes) && (forall d :: d in ds ==> d.to < |nodes|) && n < |nodes|
    ensures
      var after := DeliverAll(u, nodes, g, ds, clock)[n];
      after.docId == nodes[n].docId && after.nodeId == nodes[n].nodeId && after.enrolled == nodes[n].enrolled
  {
    if ds != [] { DeliveryKeepsIdentity(u, nodes, g, ds[..|ds| - 1], clock, n); }
  }

  // ---- runs ----

  lemma LogGrows(u: Suite, m: Mesh, a: Action, m': Mesh)
    requires AllSane(u, m.nodes) && Next(u, m, a, m')
    ensures LogBodies(m.log) <= LogBodies(m'.log)
  {
    forall b | b in LogBodies(m.log) ensures b in LogBodies(m'.log) {
      var e :| e in m.log && e.record.body == b;
      assert e in m'.log;
    }
  }

  lemma InjectiveWithin(h: Hash, a: set<Body>, b: set<Body>)
    requires a <= b && Injective(h, b)
    ensures Injective(h, a)
  {
  }

  lemma FailedPutKeepsCoherent(u: Suite, m: Mesh, a: Action, m': Mesh, unlogged: set<Body>)
    requires Coherent(u, m, unlogged) && FailedPut(a) && Next(u, m, a, m')
    requires Injective(u.opId, LogBodies(m'.log) + (unlogged + {WrittenBody(m.nodes[a.k], a.itemKey, a.value, false)}))
    ensures Coherent(u, m', unlogged + {WrittenBody(m.nodes[a.k], a.itemKey, a.value, false)})
  {
    var s, body := m.nodes[a.k], WrittenBody(m.nodes[a.k], a.itemKey, a.value, false);
    assert HoldsItsOwn(s, m.log, unlogged);
    InjectiveWithin(u.opId, Bodies(s.ops) + {body}, LogBodies(m'.log) + (unlogged + {body}));
    PutWrites(u, m, a, m', unlogged);
    FailedWriteKeepsCoherent(u, m, unlogged, a.k, m'.nodes[a.k], body);
  }

  lemma LoggedPutKeepsCoherent(u: Suite, m: Mesh, a: Action, m': Mesh, unlogged: set<Body>)
    requires Coherent(u, m, unlogged) && a.Put? && !FailedPut(a) && Next(u, m, a, m')
    requires Injective(u.opId, LogBodies(m'.log) + unlogged)
    ensures Coherent(u, m', unlogged)
  {
    var s, body := m.nodes[a.k], WrittenBody(m.nodes[a.k], a.itemKey, a.value, false);
    var w := Write(u, s, m.gateway, a.itemKey, a.value, a.transitionClass, false, a.stamp, a.now);
    assert HoldsItsOwn(s, m.log, unlogged);
    LogBodiesExtend(m.log, Entry(s.nodeId, w.1.value));
    InjectiveWithin(u.opId, Bodies(s.ops) + {body}, LogBodies(m'.log) + unlogged);
    PutWrites(u, m, a, m', unlogged);
    LoggedWriteKeepsCoherent(u, m, unlogged, a.k, m'.nodes[a.k], Entry(s.nodeId, w.1.value));
  }

  lemma StepKeepsCoherent(u: Suite, m: Mesh, a: Action, m': Mesh, unlogged: set<Body>)
    requires Coherent(u, m, unlogged) && Next(u, m, a, m')
    requires Injective(u.opId, LogBodies(m'.log) + UnloggedAfter(m, a, unlogged))
    ensures Coherent(u, m', UnloggedAfter(m, a, unlogged))
  {
    match a
    case Add(_, _, _, _) => AddKeepsCoherent(u, m, a, m', unlogged);
    case Put(_, _, _, _, _, _) =>
      if FailedPut(a) {
        FailedPutKeepsCoherent(u, m, a, m', unlogged);
      } else {
        LoggedPutKeepsCoherent(u, m, a, m', unlogged);
      }
    case OutsiderPuts(_) => OutsiderKeepsCoherent(u, m, a, m', unlogged);
    case Gossips(_, _) => GossipKeepsCoherent(u, m, a, m', unlogged);
    case _ => GatewayKeepsCoherent(u, m, a, m', unlogged);
  }

  /** In every run whose operations have distinct ids, the failed writes are exactly what is not logged, and each is
      held by its writer alone. */
  lemma {:induction false} RunCoherent(u: Suite, meshes: seq<Mesh>, actions: seq<Action>, i: nat)
    requires IsRun(u, meshes, actions) && i <= |actions|
    requires Injective(u.opId, AllBodies(meshes, actions, i))
    ensures Coherent(u, meshes[i], Unlogged(meshes, actions, i))
  {
    if i == 0 {
      EmptyCoherent(u, meshes[0]);
    } else {
      AllBodiesGrow(u, meshes, actions, i);
      InjectiveWithin(u.opId, AllBodies(meshes, actions, i - 1), AllBodies(meshes, actions, i));
      RunCoherent(u, meshes, actions, i - 1);
      RunStepCoherent(u, meshes, actions, i);
    }
  }

  lemma EmptyCoherent(u: Suite, m: Mesh)
    requires m.nodes == [] && m.log == []
    ensures Coherent(u, m, {})
  {
  }

  lemma AllBodiesGrow(u: Suite, meshes: seq<Mesh>, actions: seq<Action>, i: nat)
    requires IsRun(u, meshes, actions) && 0 < i <= |actions|
    ensures AllBodies(meshes, actions, i - 1) <= AllBodies(meshes, actions, i)
  {
    assert StepAt(u, meshes, actions, i - 1);
    LogGrows(u, meshes[i - 1], actions[i - 1], meshes[i]);
  }

  lemma RunStepCoherent(u: Suite, meshes: seq<Mesh>, actions: seq<Action>, i: nat)
    requires IsRun(u, meshes, actions) && 0 < i <= |actions|
    requires Coherent(u, meshes[i - 1], Unlogged(meshes, actions, i - 1))
      && Injective(u.opId, AllBodies(meshes, actions, i))
    ensures Coherent(u, meshes[i], Unlogged(meshes, actions, i))
  {
    assert StepAt(u, meshes, actions, i - 1);
    StepKeepsCoherent(u, meshes[i - 1], actions[i - 1], meshes[i], Unlogged(meshes, actions, i - 1));
  }

  lemma {:induction false} UnloggedIff(u: Suite, meshes: seq<Mesh>, actions: seq<Action>, i: nat)
    requires IsRun(u, meshes, actions) && i <= |actions|
    ensures Unlogged(meshes, actions, i) == {} <==> forall j :: 0 <= j < i ==> !FailedPut(actions[j])
  {
    if i > 0 {
      UnloggedIff(u, meshes, actions, i - 1);
      PutInRange(u, meshes, actions, i - 1);
      NoneAfterIff(meshes[i - 1], actions[i - 1], Unlogged(meshes, actions, i - 1));
    }
  }

  lemma PutInRange(u: Suite, meshes: seq<Mesh>, actions: seq<Action>, i: nat)
    requires IsRun(u, meshes, actions) && i < |actions|
    ensures actions[i].Put? ==> actions[i].k < |meshes[i].nodes|
  {
    assert StepAt(u, meshes, actions, i);
  }

  lemma NoneAfterIff(m: Mesh, a: Action, unlogged: set<Body>)
    requires a.Put? ==> a.k < |m.nodes|
    ensures UnloggedAfter(m, a, unlogged) == {} <==> unlogged == {} && !FailedPut(a)
  {
  }

  // ---- convergence ----

  /** The node holds everything logged and its own failed writes. */
  ghost predicate HoldsAll(s: NodeState, log: seq<Entry>, unlogged: set<Body>)
  {
    Bodies(s.ops) == LogBodies(log) + Own(unlogged, s.nodeId)
  }

  /** What a run looks like after gossip. */
  ghost predicate Gossiped(u: Suite, m: Mesh, nodes: seq<NodeState>, unlogged: set<Body>)
  {
    && AllSane(u, nodes) && |nodes| == |m.nodes|
    && (forall n :: 0 <= n < |nodes| ==> nodes[n].nodeId == m.nodes[n].nodeId)
    && (forall n :: 0 <= n < |nodes| ==> HoldsAll(nodes[n], m.log, unlogged))
    && (forall i, j :: 0 <= i < j < |nodes| ==> nodes[i].nodeId != nodes[j].nodeId)
    && (forall b :: b in unlogged ==> b !in LogBodies(m.log) && Listed(nodes, b.nodeId))
  }

  lemma GossipStep(u: Suite, m: Mesh, a: Action, m': Mesh, unlogged: set<Body>)
    requires Coherent(u, m, unlogged) && a.Gossips? && Next(u, m, a, m')
      && Injective(u.opId, LogBodies(m.log) + unlogged)
    ensures Gossiped(u, m, m'.nodes, unlogged)
  {
    GossipKeepsCoherent(u, m, a, m', unlogged);
    forall n | 0 <= n < |m'.nodes| ensures HoldsAll(m'.nodes[n], m.log, unlogged) {
      assert HoldsItsOwn(m.nodes[n], m.log, unlogged);
    }
  }

  lemma RunGossips(u: Suite, meshes: seq<Mesh>, actions: seq<Action>, i: nat)
    requires IsRun(u, meshes, actions) && i < |actions| && actions[i].Gossips?
    requires Injective(u.opId, AllBodies(meshes, actions, i))
    ensures Gossiped(u, meshes[i], meshes[i + 1].nodes, Unlogged(meshes, actions, i))
  {
    RunCoherent(u, meshes, actions, i);
    assert StepAt(u, meshes, actions, i);
    GossipStep(u, meshes[i], actions[i], meshes[i + 1], Unlogged(meshes, actions, i));
  }

  lemma UnifiesIffNoneUnlogged(u: Suite, m: Mesh, nodes: seq<NodeState>, unlogged: set<Body>)
    requires Gossiped(u, m, nodes, unlogged)
    ensures |nodes| >= 2 ==> (SameOperations(nodes) <==> unlogged == {})
    ensures unlogged == {} ==> SameOperations(nodes)
  {
    if b :| b in unlogged {
      var k :| 0 <= k < |nodes| && nodes[k].nodeId == b.nodeId;
      var other := if k == 0 then 1 else 0;
      assert HoldsAll(nodes[k], m.log, unlogged) && b in Bodies(nodes[k].ops);
      assert |nodes| >= 2 ==> HoldsAll(nodes[other], m.log, unlogged) && b !in Bodies(nodes[other].ops);
    } else {
      forall n | 0 <= n < |nodes| ensures Bodies(nodes[n].ops) == LogBodies(m.log) {
        assert HoldsAll(nodes[n], m.log, unlogged);
      }
    }
  }

  /** After gossip, in any delivery order, two or more nodes hold the same operations exactly when no earlier write
      named an unknown transition class. */
  lemma GossipUnifiesIffNoneFailed(u: Suite, meshes: seq<Mesh>, actions: seq<Action>, i: nat)
    requires IsRun(u, meshes, actions) && i < |actions| && actions[i].Gossips? && |meshes[i].nodes| >= 2
    requires Injective(u.opId, AllBodies(meshes, actions, i))
    ensures SameOperations(meshes[i + 1].nodes) <==> forall j :: 0 <= j < i ==> !FailedPut(actions[j])
  {
    RunGossips(u, meshes, actions, i);
    UnifiesIffNoneUnlogged(u, meshes[i], meshes[i + 1].nodes, Unlogged(meshes, actions, i));
    UnloggedIff(u, meshes, actions, i);
  }

  lemma GossipMakesSame(u: Suite, meshes: seq<Mesh>, actions: seq<Action>, i: nat)
    requires IsRun(u, meshes, actions) && i < |actions| && actions[i].Gossips?
    requires Injective(u.opId, AllBodies(meshes, actions, i)) && forall j :: 0 <= j < i ==> !FailedPut(actions[j])
    ensures AllSane(u, meshes[i + 1].nodes) && SameOperations(meshes[i + 1].nodes)
    ensures |meshes[i + 1].nodes| == |meshes[i].nodes|
  {
    RunGossips(u, meshes, actions, i);
    UnifiesIffNoneUnlogged(u, meshes[i], meshes[i + 1].nodes, Unlogged(meshes, actions, i));
    UnloggedIff(u, meshes, actions, i);
  }

  /** Nodes that hold the same operations show one observed view and one list of heads. */
  lemma SameOperationsConverge(u: Suite, digest: map<string, Value> -> string, states: seq<NodeState>)
    requires AllSane(u, states) && SameOperations(states) && states != []
    ensures ConvergedIn(u, digest, OBSERVED, states)
    ensures forall m, n :: 0 <= m < |states| && 0 <= n < |states| ==>
      View(u.opId, states[m].ops, VISIBLE) == View(u.opId, states[n].ops, VISIBLE)
      && Heads(u.opId, states[m].ops) == Heads(u.opId, states[n].ops)
  {
    forall m, n | 0 <= m < |states| && 0 <= n < |states|
      ensures View(u.opId, states[m].ops, VISIBLE) == View(u.opId, states[n].ops, VISIBLE)
      ensures Heads(u.opId, states[m].ops) == Heads(u.opId, states[n].ops)
    {
      BodiesDetermineLog(u.opId, states[m].ops, states[n].ops);
      ObservedIgnoresClassification(u.opId, states[m].ops, states[n].ops);
    }
  }

  /** With at least one node and no failed write, gossip makes the harness report convergence of the observed track. */
  lemma GossipConverged(u: Suite, meshes: seq<Mesh>, actions: seq<Action>, i: nat, digest: map<string, Value> -> string)
    requires IsRun(u, meshes, actions) && i < |actions| && actions[i].Gossips? && meshes[i].nodes != []
    requires Injective(u.opId, AllBodies(meshes, actions, i)) && forall j :: 0 <= j < i ==> !FailedPut(actions[j])
    ensures AllSane(u, meshes[i + 1].nodes) && ConvergedIn(u, digest, OBSERVED, meshes[i + 1].nodes)
  {
    GossipMakesSame(u, meshes, actions, i);
    SameOperationsConverge(u, digest, meshes[i + 1].nodes);
  }

  /** In every such run, after any gossip, all nodes show one observed view and one list of heads. */
  lemma GossipAlwaysConverges(u: Suite, meshes: seq<Mesh>, actions: seq<Action>, i: nat, m: nat, n: nat)
    requires IsRun(u, meshes, actions) && i < |actions| && actions[i].Gossips?
    requires Injective(u.opId, AllBodies(meshes, actions, i)) && forall j :: 0 <= j < i ==> !FailedPut(actions[j])
    requires m < |meshes[i + 1].nodes| && n < |meshes[i + 1].nodes|
    ensures
      var h, a, b := u.opId, meshes[i + 1].nodes[m].ops, meshes[i + 1].nodes[n].ops;
      && Keyed(h, a) && Keyed(h, b)
      && View(h, a, VISIBLE) == View(h, b, VISIBLE) && Heads(h, a) == Heads(h, b)
  {
    GossipMakesSame(u, meshes, actions, i);
    SameOperationsConverge(u, _ => "", meshes[i + 1].nodes);
  }

  /** After a failed write to a key that nothing else writes to, gossip leaves the writer showing the key and every
      other node without it. */
  lemma FailedWriteSplitsViews(u: Suite, meshes: seq<Mesh>, actions: seq<Action>, i: nat, b: Body, k: nat, n: nat)
    requires IsRun(u, meshes, actions) && i < |actions| && actions[i].Gossips?
    requires Injective(u.opId, AllBodies(meshes, actions, i))
    requires b in Unlogged(meshes, actions, i)
    requires forall c :: c in AllBodies(meshes, actions, i) && c.key == b.key ==> c == b
    requires k < |meshes[i].nodes| && n < |meshes[i].nodes| && k != n && meshes[i].nodes[k].nodeId == b.nodeId
    ensures AllSane(u, meshes[i + 1].nodes) && |meshes[i + 1].nodes| == |meshes[i].nodes|
    ensures
      var h, nodes := u.opId, meshes[i + 1].nodes;
      b.key in View(h, nodes[k].ops, VISIBLE) && b.key !in View(h, nodes[n].ops, VISIBLE)
  {
    RunGossips(u, meshes, actions, i);
    UnloggedNotDeletion(meshes, actions, i, b);
    ViewsSplit(u, meshes[i], meshes[i + 1].nodes, Unlogged(meshes, actions, i), b, k, n);
  }

  lemma ViewsSplit(u: Suite, m: Mesh, nodes: seq<NodeState>, unlogged: set<Body>, b: Body, k: nat, n: nat)
    requires Gossiped(u, m, nodes, unlogged) && b in unlogged && !b.deletion
    requires forall c :: c in LogBodies(m.log) + unlogged && c.key == b.key ==> c == b
    requires k < |nodes| && n < |nodes| && k != n && nodes[k].nodeId == b.nodeId
    ensures b.key in View(u.opId, nodes[k].ops, VISIBLE) && b.key !in View(u.opId, nodes[n].ops, VISIBLE)
  {
    assert HoldsAll(nodes[k], m.log, unlogged) && HoldsAll(nodes[n], m.log, unlogged);
    assert nodes[k].nodeId != nodes[n].nodeId;
    OnlyWriteShows(u, nodes[k], b);
    NoWriteNoKey(u, nodes[n], b);
  }

  lemma {:induction false} UnloggedNotDeletion(meshes: seq<Mesh>, actions: seq<Action>, i: nat, b: Body)
    requires i <= |actions| < |meshes| && b in Unlogged(meshes, actions, i)
    ensures !b.deletion
  {
    if b in Unlogged(meshes, actions, i - 1) { UnloggedNotDeletion(meshes, actions, i - 1, b); }
  }

  lemma OnlyWriteShows(u: Suite, s: NodeState, b: Body)
    requires Sane(u, s) && b in Bodies(s.ops) && !b.deletion
    requires forall c :: c in Bodies(s.ops) && c.key == b.key ==> c == b
    ensures b.key in View(u.opId, s.ops, VISIBLE)
  {
    var x :| x in s.ops && s.ops[x].body == b;
    assert b.key in Crdt.KeysOf(s.ops, VISIBLE);
    var w := Winner(u.opId, s.ops, VISIBLE, b.key);
    assert s.ops[w].body in Bodies(s.ops);
  }

  lemma NoWriteNoKey(u: Suite, s: NodeState, b: Body)
    requires Sane(u, s) && forall c :: c in Bodies(s.ops) ==> c.key != b.key
    ensures b.key !in View(u.opId, s.ops, VISIBLE)
  {
    forall x | x in s.ops ensures s.ops[x].body.key != b.key { assert s.ops[x].body in Bodies(s.ops); }
  }
}
