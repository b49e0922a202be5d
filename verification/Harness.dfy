// The in-process mesh harness (szl_mesh.harness): writes are logged, gossip delivers the log to every other node.
module Harness {
  import opened Prelude
  import opened Orders
  import opened Crdt
  import opened Receipts
  import opened Enrollment
  import opened Node

  /** A logged broadcast: who wrote it, and the operation with its receipt. */
  datatype Entry = Entry(origin: string, record: Record)

  /** A delivery: the index of the receiving node, and the record. */
  datatype Delivery = Delivery(to: nat, record: Record)

  /** A clock that may be read once per delivery. */
  type Ticks = nat -> real

  // ---- gossip on states ----

  /** Every logged record for every node except the one it originates at, in the order of the two loops. */
  function Deliveries(ids: seq<string>, log: seq<Entry>): (ds: seq<Delivery>)
    ensures forall d :: d in ds ==> d.to < |ids|
  {
    if log == [] then []
    else
      var last := log[|log| - 1];
      Deliveries(ids, log[..|log| - 1]) + Recipients(ids, last, |ids|)
  }

  function Recipients(ids: seq<string>, e: Entry, n: nat): (ds: seq<Delivery>)
    requires n <= |ids|
    ensures forall d :: d in ds ==> d.to < n
  {
    if n == 0 then []
    else if ids[n - 1] == e.origin then Recipients(ids, e, n - 1)
    else Recipients(ids, e, n - 1) + [Delivery(n - 1, e.record)]
  }

  ghost function DeliverAll(u: Suite, nodes: seq<NodeState>, g: Gateway, ds: seq<Delivery>,
                            clock: Ticks): (r: seq<NodeState>)
    requires AllSane(u, nodes) && forall d :: d in ds ==> d.to < |nodes|
    ensures |r| == |nodes| && AllSane(u, r)
  {
    if ds == [] then nodes
    else
      var k := |ds| - 1;
      var before := DeliverAll(u, nodes, g, ds[..k], clock);
      var to, record := ds[k].to, ds[k].record;
      ApplyKeepsSane(u, before[to], g, record.body, record.receipt, clock(k));
      before[to := ApplyRemote(u, before[to], g, record.body, record.receipt, clock(k)).0]
  }

  function Ids(nodes: seq<NodeState>): (ids: seq<string>)
    ensures |ids| == |nodes| && forall n :: 0 <= n < |nodes| ==> ids[n] == nodes[n].nodeId
  {
    seq(|nodes|, n requires 0 <= n < |nodes| => nodes[n].nodeId)
  }

  function LogBodies(log: seq<Entry>): set<Body>
  {
    set e | e in log :: e.record.body
  }

  function SentTo(ds: seq<Delivery>, n: nat): set<Body>
  {
    set d | d in ds && d.to == n :: d.record.body
  }

  lemma {:induction false} RecipientsExact(ids: seq<string>, e: Entry, n: nat, d: Delivery)
    requires n <= |ids|
    ensures d in Recipients(ids, e, n) <==> d.to < n && ids[d.to] != e.origin && d.record == e.record
  {
    if n > 0 { RecipientsExact(ids, e, n - 1, d); }
  }

  lemma {:induction false} DeliveriesExact(ids: seq<string>, log: seq<Entry>, d: Delivery)
    ensures d in Deliveries(ids, log) <==>
      d.to < |ids| && exists e :: e in log && e.origin != ids[d.to] && e.record == d.record
  {
    if log != [] {
      var before, last := log[..|log| - 1], log[|log| - 1];
      assert log == before + [last];
      DeliveriesExact(ids, before, d);
      RecipientsExact(ids, last, |ids|, d);
    }
  }

  /** The log entries that are owed as this delivery. */
  ghost function Owed(ids: seq<string>, log: seq<Entry>, d: Delivery): set<nat>
  {
    set i: nat | i < |log| && d.to < |ids| && ids[d.to] != log[i].origin && log[i].record == d.record
  }

  lemma {:induction false} RecipientsOnce(ids: seq<string>, e: Entry, n: nat, d: Delivery)
    requires n <= |ids|
    ensures multiset(Recipients(ids, e, n))[d] ==
      if d.to < n && ids[d.to] != e.origin && d.record == e.record then 1 else 0
  {
    if n > 0 { RecipientsOnce(ids, e, n - 1, d); }
  }

  /** Each delivery is planned once for every log entry that it carries to a node of another id. */
  lemma {:induction false} DeliveriesCount(ids: seq<string>, log: seq<Entry>, d: Delivery)
    ensures multiset(Deliveries(ids, log))[d] == |Owed(ids, log, d)|
  {
    if log != [] {
      var rest, last := log[..|log| - 1], log[|log| - 1];
      DeliveriesCount(ids, rest, d);
      RecipientsOnce(ids, last, |ids|, d);
      OwedNext(ids, log, d);
      CountSum(Deliveries(ids, rest), Recipients(ids, last, |ids|), d);
    }
  }

  lemma CountSum<T>(a: seq<T>, b: seq<T>, x: T)
    ensures multiset(a + b)[x] == multiset(a)[x] + multiset(b)[x]
  {
  }

  lemma OwedNext(ids: seq<string>, log: seq<Entry>, d: Delivery)
    requires log != []
    ensures
      var last := log[|log| - 1];
      |Owed(ids, log, d)| == |Owed(ids, log[..|log| - 1], d)|
        + if d.to < |ids| && ids[d.to] != last.origin && d.record == last.record then 1 else 0
  {
    var rest, last := log[..|log| - 1], log[|log| - 1];
    var owed := d.to < |ids| && ids[d.to] != last.origin && d.record == last.record;
    assert Owed(ids, log, d) == Owed(ids, rest, d) + if owed then {|rest|} else {};
  }

  /** What a formation looks like when nodes write only through the harness: one document, and the node with
      the origin's id already holds each record logged for it. */
  ghost predicate Logged(u: Suite, docId: string, nodes: seq<NodeState>, log: seq<Entry>)
  {
    && AllSane(u, nodes)
    && (forall n :: 0 <= n < |nodes| ==> nodes[n].docId == docId)
    && (forall e :: e in log ==> e.record.body.docId == docId)
    && forall e, n :: e in log && 0 <= n < |nodes| && nodes[n].nodeId == e.origin
         ==> e.record.body in Bodies(nodes[n].ops)
  }

  /** All the operations in play are among these. */
  ghost predicate Within(nodes: seq<NodeState>, log: seq<Entry>, all: set<Body>)
  {
    LogBodies(log) <= all && forall n :: 0 <= n < |nodes| ==> Bodies(nodes[n].ops) <= all
  }

  /** Some order of the deliveries that gossip makes. */
  ghost predicate DeliveryOrder(nodes: seq<NodeState>, log: seq<Entry>, order: seq<Delivery>)
  {
    && multiset(order) == multiset(Deliveries(Ids(nodes), log))
    && forall d :: d in order ==> d.to < |nodes|
  }

  lemma PermutationIsOrder(nodes: seq<NodeState>, log: seq<Entry>, order: seq<Delivery>)
    requires multiset(order) == multiset(Deliveries(Ids(nodes), log))
    ensures DeliveryOrder(nodes, log, order)
  {
    forall d | d in order ensures d.to < |nodes| {
      assert d in multiset(order);
      assert d in Deliveries(Ids(nodes), log);
    }
  }

  lemma OrderExact(nodes: seq<NodeState>, log: seq<Entry>, order: seq<Delivery>, d: Delivery)
    requires DeliveryOrder(nodes, log, order)
    ensures d in order
      <==> d.to < |nodes| && exists e :: e in log && e.origin != nodes[d.to].nodeId && e.record == d.record
  {
    var ds := Deliveries(Ids(nodes), log);
    assert d in order <==> d in multiset(order);
    assert d in ds <==> d in multiset(ds);
    DeliveriesExact(Ids(nodes), log, d);
  }

  lemma {:induction false} DeliverAllBodies(u: Suite, docId: string, nodes: seq<NodeState>, g: Gateway,
                                            ds: seq<Delivery>, clock: Ticks, all: set<Body>, n: nat)
    requires AllSane(u, nodes) && (forall d :: d in ds ==> d.to < |nodes|) && n < |nodes|
    requires forall m :: 0 <= m < |nodes| ==> nodes[m].docId == docId && Bodies(nodes[m].ops) <= all
    requires forall d :: d in ds ==> d.record.body.docId == docId && d.record.body in all
    requires Injective(u.opId, all)
    ensures
      var after := DeliverAll(u, nodes, g, ds, clock)[n];
      Bodies(after.ops) == Bodies(nodes[n].ops) + SentTo(ds, n) && after.docId == docId
        && after.nodeId == nodes[n].nodeId
  {
    if ds != [] {
      var k := |ds| - 1;
      var past, last := ds[..k], ds[k];
      assert ds == past + [last];
      DeliverAllBodies(u, docId, nodes, g, past, clock, all, n);
      var before := DeliverAll(u, nodes, g, past, clock)[n];
      SentNext(past, last, n);
      if last.to == n {
        forall b | b in SentTo(past, n) ensures b in all {}
        ApplyBodies(u, before, g, last.record.body, last.record.receipt, clock(k));
      }
    }
  }

  lemma SentNext(past: seq<Delivery>, last: Delivery, n: nat)
    ensures SentTo(past + [last], n) == SentTo(past, n) + if last.to == n then {last.record.body} else {}
  {
    assert forall d :: d in past + [last] <==> d in past || d == last;
  }

  lemma SentOrHeld(u: Suite, docId: string, nodes: seq<NodeState>, log: seq<Entry>, order: seq<Delivery>, n: nat)
    requires Logged(u, docId, nodes, log) && DeliveryOrder(nodes, log, order) && n < |nodes|
    ensures SentTo(order, n) <= LogBodies(log) <= Bodies(nodes[n].ops) + SentTo(order, n)
  {
    forall d | d in order ensures d.record.body in LogBodies(log) { OrderExact(nodes, log, order, d); }
    forall b | b in LogBodies(log) ensures b in Bodies(nodes[n].ops) + SentTo(order, n) {
      var e :| e in log && e.record.body == b;
      OrderExact(nodes, log, order, Delivery(n, e.record));
    }
  }

  /** Whatever the order of delivery, gossip leaves each node with what it held and everything logged. */
  lemma GossipDelivers(u: Suite, docId: string, nodes: seq<NodeState>, g: Gateway, log: seq<Entry>,
                       order: seq<Delivery>, clock: Ticks, all: set<Body>, n: nat)
    requires Logged(u, docId, nodes, log) && Within(nodes, log, all) && Injective(u.opId, all)
    requires DeliveryOrder(nodes, log, order) && n < |nodes|
    ensures Bodies(DeliverAll(u, nodes, g, order, clock)[n].ops) == Bodies(nodes[n].ops) + LogBodies(log)
  {
    forall d | d in order ensures d.record.body.docId == docId && d.record.body in LogBodies(log) {
      OrderExact(nodes, log, order, d);
    }
    DeliverAllBodies(u, docId, nodes, g, order, clock, all, n);
    SentOrHeld(u, docId, nodes, log, order, n);
  }

  /** The delivery makes node n classify the operation with this id. */
  predicate Brings(u: Suite, docId: string, d: Delivery, n: nat, id: string)
  {
    d.to == n && d.record.body.docId == docId && u.opId(d.record.body) == id
  }

  lemma DeliveryVerdict(u: Suite, s: NodeState, g: Gateway, record: Record, now: real, id: string)
    ensures
      var t := ApplyRemote(u, s, g, record.body, record.receipt, now).0;
      && t.docId == s.docId && t.joined == s.joined && (id in s.ops ==> id in t.ops)
      && if record.body.docId == s.docId && u.opId(record.body) == id
         then
           id in t.ops && t.ops[id].track == (
             if s.joined && record.receipt.Some?
               && Evidence(u, record.receipt.value, id, now, g.revoked, CLOCK_SKEW_SECONDS, Registry(g))
             then AUTHORIZED else OBSERVED)
         else id in s.ops ==> t.ops[id].track == s.ops[id].track
  {
    RemoteExact(u, s, g, record.body, record.receipt, now);
  }

  /** What gossip authorizes: after deliveries in any order, an operation is authorized at a node exactly when the node
      has joined and the receipt that came with it last was evidence by the clock at its arrival. */
  lemma {:induction false} GossipAuthorizesIff(u: Suite, nodes: seq<NodeState>, g: Gateway, ds: seq<Delivery>,
                                               clock: Ticks, n: nat, id: string, k: nat)
    requires AllSane(u, nodes) && (forall d :: d in ds ==> d.to < |nodes|) && n < |nodes| && k < |ds|
    requires Brings(u, nodes[n].docId, ds[k], n, id)
    requires forall j :: k < j < |ds| ==> !Brings(u, nodes[n].docId, ds[j], n, id)
    ensures
      var after, receipt := DeliverAll(u, nodes, g, ds, clock)[n], ds[k].record.receipt;
      && id in after.ops
      && (after.ops[id].track == AUTHORIZED <==>
          && nodes[n].joined && receipt.Some?
          && Evidence(u, receipt.value, id, clock(k), g.revoked, CLOCK_SKEW_SECONDS, Registry(g)))
    decreases |ds|
  {
    var last := |ds| - 1;
    var past := ds[..last];
    var before := DeliverAll(u, nodes, g, past, clock);
    DeliveryKeepsPlace(u, nodes, g, past, clock, n);
    DeliveryVerdict(u, before[n], g, ds[last].record, clock(last), id);
    if k < last { GossipAuthorizesIff(u, nodes, g, past, clock, n, id, k); }
  }

  lemma {:induction false} DeliveryKeepsPlace(u: Suite, nodes: seq<NodeState>, g: Gateway, ds: seq<Delivery>,
                                              clock: Ticks, n: nat)
    requires AllSane(u, nodes) && (forall d :: d in ds ==> d.to < |nodes|) && n < |nodes|
    ensures
      var after := DeliverAll(u, nodes, g, ds, clock)[n];
      after.docId == nodes[n].docId && after.joined == nodes[n].joined
  {
    if ds != [] { DeliveryKeepsPlace(u, nodes, g, ds[..|ds| - 1], clock, n); }
  }

  ghost predicate SameOperations(nodes: seq<NodeState>)
  {
    forall m, n :: 0 <= m < |nodes| && 0 <= n < |nodes| ==> Bodies(nodes[m].ops) == Bodies(nodes[n].ops)
  }

  /** After gossip all nodes hold the same operations exactly when, before it, they held the same operations
      among those that were never logged. */
  lemma GossipUnifiesIff(u: Suite, docId: string, nodes: seq<NodeState>, g: Gateway, log: seq<Entry>,
                         order: seq<Delivery>, clock: Ticks, all: set<Body>)
    requires Logged(u, docId, nodes, log) && Within(nodes, log, all) && Injective(u.opId, all)
    requires DeliveryOrder(nodes, log, order)
    ensures SameOperations(DeliverAll(u, nodes, g, order, clock)) <==>
      forall m, n :: 0 <= m < |nodes| && 0 <= n < |nodes| ==>
        Bodies(nodes[m].ops) - LogBodies(log) == Bodies(nodes[n].ops) - LogBodies(log)
  {
    var after := DeliverAll(u, nodes, g, order, clock);
    forall n | 0 <= n < |nodes| ensures Bodies(after[n].ops) == Bodies(nodes[n].ops) + LogBodies(log) {
      GossipDelivers(u, docId, nodes, g, log, order, clock, all, n);
    }
    SameOperationsIff(nodes, after, LogBodies(log));
  }

  lemma SameOperationsIff(nodes: seq<NodeState>, after: seq<NodeState>, logged: set<Body>)
    requires |after| == |nodes| && forall n :: 0 <= n < |nodes| ==>
      Bodies(after[n].ops) == Bodies(nodes[n].ops) + logged
    ensures SameOperations(after) <==>
      forall m, n :: 0 <= m < |nodes| && 0 <= n < |nodes| ==>
        Bodies(nodes[m].ops) - logged == Bodies(nodes[n].ops) - logged
  {
    forall m, n | 0 <= m < |nodes| && 0 <= n < |nodes|
      ensures Bodies(after[m].ops) == Bodies(after[n].ops)
        <==> Bodies(nodes[m].ops) - logged == Bodies(nodes[n].ops) - logged
    {
      UnionsAgreeIff(Bodies(nodes[m].ops), Bodies(nodes[n].ops), logged);
    }
  }

  lemma UnionsAgreeIff<T>(a: set<T>, b: set<T>, c: set<T>)
    ensures a + c == b + c <==> a - c == b - c
  {
    assert a - c == (a + c) - c && b - c == (b + c) - c;
    assert a + c == (a - c) + c && b + c == (b - c) + c;
  }

  /** When every operation the nodes hold was logged, gossip in any order makes their observed views and heads equal. */
  lemma GossipConverges(u: Suite, docId: string, nodes: seq<NodeState>, g: Gateway, log: seq<Entry>,
                        order: seq<Delivery>, clock: Ticks, m: nat, n: nat)
    requires Logged(u, docId, nodes, log) && Injective(u.opId, LogBodies(log))
    requires forall k :: 0 <= k < |nodes| ==> Bodies(nodes[k].ops) <= LogBodies(log)
    requires DeliveryOrder(nodes, log, order) && m < |nodes| && n < |nodes|
    ensures
      var h, after := u.opId, DeliverAll(u, nodes, g, order, clock);
      && View(h, after[m].ops, VISIBLE) == View(h, after[n].ops, VISIBLE)
      && Heads(h, after[m].ops) == Heads(h, after[n].ops)
  {
    GossipDelivers(u, docId, nodes, g, log, order, clock, LogBodies(log), m);
    GossipDelivers(u, docId, nodes, g, log, order, clock, LogBodies(log), n);
    var after := DeliverAll(u, nodes, g, order, clock);
    BodiesDetermineLog(u.opId, after[m].ops, after[n].ops);
    ObservedIgnoresClassification(u.opId, after[m].ops, after[n].ops);
  }

  /** A write whose transition class is unknown fails after the node has stored the operation: nothing is left to
      broadcast, and the operation is held by its writer alone. */
  lemma FailedWriteStaysUnlogged(u: Suite, s: NodeState, g: Gateway, key: string, value: Value, transitionClass: string,
                                 deletion: bool, stamp: int, now: real)
    requires Sane(u, s) && s.enrolled && Injective(u.opId, Bodies(s.ops) + {WrittenBody(s, key, value, deletion)})
    ensures
      var r := Write(u, s, g, key, value, transitionClass, deletion, stamp, now);
      && (r.1.Failure? <==> transitionClass !in TRANSITION_CLASSES)
      && Bodies(r.0.ops) == Bodies(s.ops) + {WrittenBody(s, key, value, deletion)} != Bodies(s.ops)
  {
    WriteBodies(u, s, g, key, value, transitionClass, deletion, stamp, now);
    assert forall b :: b in Bodies(s.ops) ==> b.lamport <= s.lamport;
  }

  /** len(set(values)) == 1 */
  function OneValue(values: seq<string>): (one: bool)
    ensures one <==> values != [] && forall i :: 0 <= i < |values| ==> values[i] == values[0]
  {
    if values == [] then |Elements(values)| == 1
    else
      assert values[0] in values;
      OneElement(Elements(values), values[0]);
      assert forall i :: 0 <= i < |values| ==> values[i] in Elements(values);
      |Elements(values)| == 1
  }

  function TracksOf(track: Track): set<Track> { if track == AUTHORIZED then {AUTHORIZED} else VISIBLE }

  ghost function ViewOf(u: Suite, s: NodeState, track: Track): map<string, Value>
    requires Sane(u, s)
  {
    View(u.opId, s.ops, TracksOf(track))
  }

  /** There is a node, and all nodes show views with one digest. */
  ghost predicate ConvergedIn(u: Suite, digest: map<string, Value> -> string, track: Track, states: seq<NodeState>)
    requires AllSane(u, states)
  {
    states != [] && forall n :: 0 <= n < |states| ==>
      digest(ViewOf(u, states[n], track)) == digest(ViewOf(u, states[0], track))
  }

  // ---- the harness ----

  /** random.shuffle: Fisher-Yates with unknown choices. */
  method Shuffle<T>(s: seq<T>, choose: nat -> nat) returns (r: seq<T>)
    ensures multiset(r) == multiset(s)
  {
    r := s;
    var i := |r|;
    while i > 1
      invariant 0 <= i <= |r| == |s| && multiset(r) == multiset(s)
    {
      i := i - 1;
      var j := choose(i) % (i + 1);
      r := r[i := r[j]][j := r[i]];
    }
  }

  class MeshHarness {
    const suite: Suite
    const docId: string
    const formationKey: bytes
    const gateway: FormationGateway
    var nodes: seq<MeshNode>
    var broadcastLog: seq<Entry>

    ghost function Docs(): set<CRDTDocument>
      reads this
    {
      set n | n in nodes :: n.doc
    }

    ghost predicate Valid()
      reads this, nodes, Docs()
    {
      && gateway.suite == suite
      && (forall i :: 0 <= i < |nodes| ==>
          nodes[i].Valid() && nodes[i].suite == suite && nodes[i].docId == docId && nodes[i].gateway == gateway)
      && forall i, j :: 0 <= i < j < |nodes| ==> nodes[i] != nodes[j] && nodes[i].doc != nodes[j].doc
    }

    ghost function States(): (r: seq<NodeState>)
      reads this, nodes, Docs()
      ensures |r| == |nodes| && forall i :: 0 <= i < |nodes| ==> r[i] == nodes[i].State()
    {
      seq(|nodes|, i requires 0 <= i < |nodes| reads this, nodes, Docs() => nodes[i].State())
    }

    constructor (suite: Suite, formationId: string, docId: string, formationKey: bytes)
      ensures Valid() && fresh(gateway) && nodes == [] && broadcastLog == []
      ensures this.suite == suite && this.docId == docId && this.formationKey == formationKey
      ensures gateway.State() == Gateway(formationKey, 300.0, map[], {})
    {
      this.suite := suite;
      this.docId := docId;
      this.formationKey := formationKey;
      gateway := new FormationGateway(suite, formationId, formationKey, 300.0);
      nodes, broadcastLog := [], [];
    }

    method AddNode(name: string, key: bytes, timestamp: string, vendor: string, now: real)
      returns (node: MeshNode, r: Result<Certificate, Rejection>)
      requires Valid()
      modifies this`nodes, gateway
      ensures Valid() && fresh(node) && fresh(node.doc)
      ensures broadcastLog == old(broadcastLog)
      ensures (node.State(), gateway.State())
        == Enroll(suite, NewNode(suite, docId, key), old(gateway.State()), formationKey, timestamp, DOCTRINE_VERSION,
                  KERNEL_COMMIT, SLSA_LEVEL, vendor, now)
      ensures nodes == if r.Success? then old(nodes) + [node] else old(nodes)
      ensures forall i :: 0 <= i < |old(nodes)| ==> nodes[i].State() == old(nodes[i].State())
    {
      node := new MeshNode(suite, name, docId, key);
      r := node.EnrollWith(gateway, formationKey, timestamp, DOCTRINE_VERSION, KERNEL_COMMIT, SLSA_LEVEL, vendor, now);
      forall i | 0 <= i < |nodes| ensures nodes[i].Valid() && nodes[i].State() == old(nodes[i].State()) {}
      if r.Success? {
        nodes := nodes + [node];
      }
    }

    /** A node writes, listed or not; a successful write is logged for gossip. */
    method WriteBy(node: MeshNode, key: string, value: Value, transitionClass: string, stamp: int, now: real)
      returns (r: Result<Record, NodeError>)
      requires Valid() && node.Valid() && node.suite == suite
      requires forall i :: 0 <= i < |nodes| && nodes[i] != node ==> nodes[i].doc != node.doc
      modifies this`broadcastLog, node`receiptLedger, node`lamport, node.doc
      ensures Valid() && node.Valid()
      ensures (node.State(), r)
        == Write(suite, old(node.State()), old(node.GatewayState()), key, value, transitionClass, false, stamp, now)
      ensures broadcastLog == old(broadcastLog) + if r.Success? then [Entry(node.nodeId, r.value)] else []
      ensures forall i :: 0 <= i < |nodes| && nodes[i] != node ==> nodes[i].State() == old(nodes[i].State())
    {
      r := node.WriteOp(key, value, transitionClass, false, stamp, now);
      forall i | 0 <= i < |nodes| && nodes[i] != node
        ensures nodes[i].Valid() && nodes[i].State() == old(nodes[i].State())
      {
      }
      if r.Success? {
        broadcastLog := broadcastLog + [Entry(node.nodeId, r.value)];
      }
    }

    ghost function NodeIds(): (ids: seq<string>)
      reads this
      ensures |ids| == |nodes| && forall n :: 0 <= n < |nodes| ==> ids[n] == nodes[n].nodeId
    {
      seq(|nodes|, n requires 0 <= n < |nodes| reads this => nodes[n].nodeId)
    }

    lemma NodeIdsAreIds()
      requires Valid()
      ensures NodeIds() == Ids(States())
    {
    }

    /** The deliveries gossip makes, in the order of its two loops. */
    method PlanDeliveries() returns (ds: seq<Delivery>)
      ensures ds == Deliveries(NodeIds(), broadcastLog)
    {
      ds := [];
      for e := 0 to |broadcastLog|
        invariant ds == Deliveries(NodeIds(), broadcastLog[..e])
      {
        assert broadcastLog[..e + 1][..e] == broadcastLog[..e];
        ghost var before := ds;
        for n := 0 to |nodes|
          invariant ds == before + Recipients(NodeIds(), broadcastLog[e], n)
        {
          if nodes[n].nodeId != broadcastLog[e].origin {
            ds := ds + [Delivery(n, broadcastLog[e].record)];
          }
        }
      }
      assert broadcastLog[..|broadcastLog|] == broadcastLog;
    }

    method DeliverTo(d: Delivery, now: real)
      requires Valid() && d.to < |nodes|
      modifies nodes[d.to], nodes[d.to].doc
      ensures Valid()
      ensures States() == old(States())[d.to :=
        ApplyRemote(suite, old(States())[d.to], gateway.State(), d.record.body, d.record.receipt, now).0]
    {
      var _ := nodes[d.to].Receive(d.record.body, d.record.receipt, now);
    }

    method Gossip(shuffle: bool, choose: nat -> nat, clock: Ticks) returns (ghost order: seq<Delivery>)
      requires Valid()
      modifies nodes, Docs()
      ensures Valid() && DeliveryOrder(old(States()), broadcastLog, order)
      ensures !shuffle ==> order == Deliveries(Ids(old(States())), broadcastLog)
      ensures AllSane(suite, old(States()))
        && States() == DeliverAll(suite, old(States()), gateway.State(), order, clock)
    {
      ghost var start := States();
      var ds := ChooseOrder(shuffle, choose, start);
      order := ds;
      DeliverInOrder(ds, clock, start);
    }

    method ChooseOrder(shuffle: bool, choose: nat -> nat, ghost start: seq<NodeState>) returns (ds: seq<Delivery>)
      requires Valid() && start == States()
      ensures Valid() && start == States()
      ensures DeliveryOrder(start, broadcastLog, ds)
      ensures !shuffle ==> ds == Deliveries(Ids(start), broadcastLog)
    {
      NodeIdsAreIds();
      ds := PlanDeliveries();
      if shuffle {
        ds := Shuffle(ds, choose);
      }
      PermutationIsOrder(start, broadcastLog, ds);
      assert forall i :: 0 <= i < |nodes| ==> nodes[i].State() == start[i];
      assert States() == start;
    }

    method DeliverInOrder(ds: seq<Delivery>, clock: Ticks, ghost start: seq<NodeState>)
      requires Valid() && (forall d :: d in ds ==> d.to < |nodes|) && start == States()
      modifies nodes, Docs()
      ensures Valid() && AllSane(suite, start)
      ensures States() == DeliverAll(suite, start, gateway.State(), ds, clock)
    {
      ghost var g := gateway.State();
      for k := 0 to |ds|
        invariant Valid()
        invariant States() == DeliverAll(suite, start, g, ds[..k], clock)
      {
        assert ds[..k + 1][..k] == ds[..k];
        DeliverTo(ds[k], clock(k));
      }
      assert ds[..|ds|] == ds;
    }

    /** The digests of all nodes' views of a track. */
    method Digests(digest: map<string, Value> -> string, track: Track) returns (digests: seq<string>)
      requires Valid()
      ensures Valid() && |digests| == |nodes|
      ensures forall i :: 0 <= i < |nodes| ==> digests[i] == digest(nodes[i].TrackView(track))
    {
      digests := [];
      for i := 0 to |nodes|
        invariant |digests| == i && forall j :: 0 <= j < i ==> digests[j] == digest(nodes[j].TrackView(track))
      {
        var view := nodes[i].StateView(track);
        digests := digests + [digest(view)];
      }
    }

    lemma NodeViews(track: Track)
      requires Valid()
      ensures AllSane(suite, States())
      ensures forall i :: 0 <= i < |nodes| ==> nodes[i].TrackView(track) == ViewOf(suite, States()[i], track)
    {
    }

    /** Whether all nodes share one digest of a track; never with no nodes. */
    method Converged(digest: map<string, Value> -> string, track: Track) returns (ok: bool)
      requires Valid()
      ensures AllSane(suite, States()) && (ok <==> ConvergedIn(suite, digest, track, States()))
    {
      var digests := Digests(digest, track);
      NodeViews(track);
      ok := OneValue(digests);
    }
  }
}
