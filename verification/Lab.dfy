// The bounded convergence lab (lab/simulator.py) over the CRDT document class.
module Lab {
  import opened Prelude
  import opened Orders
  import opened Crdt

  const MAX_OPERATIONS := 64
  const MAX_REPLICAS := 8
  const MAX_LAMPORT := 2_147_483_647

  /** A fingerprint of a materialised view: SHA-256 over its canonical encoding. */
  type Digest = map<string, Value> -> string

  datatype Row = Row(nodeId: string, key: string, value: Value, lamport: int, deletion: bool,
                     track: Option<Track>, origin: Option<int>)

  datatype Scenario = Scenario(docId: string, replicas: int, operations: seq<Row>)

  datatype SimulationError =
    | BadReplicaCount
    | BadOperationCount
    | LamportOutsideBounds(index: nat)
    | OriginOutsideReplicas(index: nat)
    | ConflictingTrack(index: nat)

  datatype Snapshot = Snapshot(operationCount: nat, heads: seq<string>,
                               authorizedView: map<string, Value>, observedView: map<string, Value>,
                               authorizedDigest: string, observedDigest: string)

  datatype Checks = Checks(converged: bool, idempotent: bool, commutative: bool, associative: bool)

  datatype Report = Report(status: string, inputCount: nat, operationIds: seq<string>, duplicates: nat,
                           initial: seq<Snapshot>, final: seq<Snapshot>, checks: Checks)

  // ---- what a scenario says ----

  function RowOp(docId: string, row: Row): Op
  {
    Op(Body(docId, row.key, row.value, row.lamport, row.nodeId, row.deletion),
       if row.track.Some? then row.track.value else OBSERVED)
  }

  function RowOps(docId: string, rows: seq<Row>): (ops: seq<Op>)
    ensures |ops| == |rows|
  {
    seq(|rows|, i requires 0 <= i < |rows| => RowOp(docId, rows[i]))
  }

  function RowOrigin(replicas: int, rows: seq<Row>, i: nat): int
    requires replicas > 0 && i < |rows|
  {
    if rows[i].origin.Some? then rows[i].origin.value else i % replicas
  }

  ghost predicate Conflicts(h: Hash, ops: seq<Op>, i: nat)
    requires i < |ops|
  {
    exists j :: 0 <= j < i && h(ops[j].body) == h(ops[i].body) && ops[j].track != ops[i].track
  }

  /** What is wrong with row i, in the order in which it is examined. */
  ghost function RowError(h: Hash, docId: string, replicas: int, rows: seq<Row>, i: nat): Option<SimulationError>
    requires replicas > 0 && i < |rows|
  {
    if !(0 <= rows[i].lamport <= MAX_LAMPORT) then Some(LamportOutsideBounds(i))
    else if !(0 <= RowOrigin(replicas, rows, i) < replicas) then Some(OriginOutsideReplicas(i))
    else if Conflicts(h, RowOps(docId, rows), i) then Some(ConflictingTrack(i))
    else None
  }

  /** Nothing is wrong with the first n rows. */
  ghost predicate Clean(h: Hash, docId: string, replicas: int, rows: seq<Row>, n: nat)
    requires replicas > 0 && n <= |rows|
  {
    forall i :: 0 <= i < n ==> RowError(h, docId, replicas, rows, i) == None
  }

  ghost predicate FirstError(h: Hash, docId: string, replicas: int, rows: seq<Row>, i: nat, e: SimulationError)
    requires replicas > 0 && i < |rows|
  {
    RowError(h, docId, replicas, rows, i) == Some(e) && Clean(h, docId, replicas, rows, i)
  }

  ghost predicate Accepted(h: Hash, s: Scenario)
  {
    && 2 <= s.replicas <= MAX_REPLICAS
    && 1 <= |s.operations| <= MAX_OPERATIONS
    && Clean(h, s.docId, s.replicas, s.operations, |s.operations|)
  }

  /** What is reported of a scenario that is not accepted: the first thing wrong with it. */
  ghost predicate Refused(h: Hash, s: Scenario, e: SimulationError)
  {
    if !(2 <= s.replicas <= MAX_REPLICAS) then e == BadReplicaCount
    else if !(1 <= |s.operations| <= MAX_OPERATIONS) then e == BadOperationCount
    else exists i :: 0 <= i < |s.operations| && FirstError(h, s.docId, s.replicas, s.operations, i, e)
  }

  /** The operations with the replica each is first delivered to. */
  function Deliveries(docId: string, replicas: int, rows: seq<Row>): (ds: seq<(int, Op)>)
    requires replicas > 0
    ensures |ds| == |rows|
  {
    seq(|rows|, i requires 0 <= i < |rows| => (RowOrigin(replicas, rows, i), RowOp(docId, rows[i])))
  }

  /** Every operation of the scenario, under its id. */
  function ScenarioLog(h: Hash, s: Scenario): Log { AddedAll(h, map[], RowOps(s.docId, s.operations)) }

  /** What replica p is given before the replicas are reconciled. */
  function PartitionOps(docId: string, replicas: int, rows: seq<Row>, p: int, n: nat): seq<Op>
    requires replicas > 0 && n <= |rows|
  {
    if n == 0 then []
    else if RowOrigin(replicas, rows, n - 1) == p
    then PartitionOps(docId, replicas, rows, p, n - 1) + [RowOp(docId, rows[n - 1])]
    else PartitionOps(docId, replicas, rows, p, n - 1)
  }

  ghost function SnapshotOf(h: Hash, digest: Digest, ops: Log): Snapshot
    requires Keyed(h, ops)
  {
    var a, o := View(h, ops, {AUTHORIZED}), View(h, ops, VISIBLE);
    Snapshot(|ops|, Heads(h, ops), a, o, digest(a), digest(o))
  }

  ghost function PartitionLog(h: Hash, s: Scenario, p: nat): Log
    requires s.replicas > 0
  {
    AddedAll(h, map[], PartitionOps(s.docId, s.replicas, s.operations, p, |s.operations|))
  }

  /** The report of a scenario whose every replica ends with every operation and agrees on everything. */
  ghost predicate ConvergedReport(h: Hash, digest: Digest, s: Scenario, r: Report)
    requires s.replicas > 0
  {
    var log := ScenarioLog(h, s);
    && Keyed(h, log) && r.checks == Checks(true, true, true, true) && r.status == "CONVERGED"
    && r.inputCount == |s.operations| == |log| + r.duplicates
    && r.operationIds == Sorted(log.Keys)
    && |r.final| == |r.initial| == s.replicas
    && (forall p :: 0 <= p < s.replicas ==> r.final[p] == SnapshotOf(h, digest, log))
    && (forall p :: 0 <= p < s.replicas ==>
        Keyed(h, PartitionLog(h, s, p)) && r.initial[p] == SnapshotOf(h, digest, PartitionLog(h, s, p)))
  }

  // ---- delivery orders ----

  predicate StrategyLess(h: Hash, a: Op, b: Op)
  {
    || Less(a.body.key, b.body.key)
    || (a.body.key == b.body.key && a.body.lamport > b.body.lamport)
    || (a.body.key == b.body.key && a.body.lamport == b.body.lamport && Less(a.body.nodeId, b.body.nodeId))
    || (a.body.key == b.body.key && a.body.lamport == b.body.lamport && a.body.nodeId == b.body.nodeId
        && Less(h(a.body), h(b.body)))
  }

  function Reversed<T>(s: seq<T>): seq<T>
  {
    if s == [] then [] else Reversed(s[1..]) + [s[0]]
  }

  function OrderForReplica(h: Hash, ops: seq<Op>, index: nat): seq<Op>
  {
    if ops == [] || index % 4 == 0 then ops
    else if index % 4 == 1 then Reversed(ops)
    else if index % 4 == 2 then ops[index % |ops|..] + ops[..index % |ops|]
    else Sort((a: Op, b: Op) => StrategyLess(h, a, b), ops)
  }

  lemma {:induction false} ReversedElements<T(!new)>(s: seq<T>)
    ensures forall x :: x in Reversed(s) <==> x in s
  {
    if s != [] {
      ReversedElements(s[1..]);
      assert s == [s[0]] + s[1..];
    }
  }

  /** Whatever the strategy, a replica is given the same set of operations. */
  lemma OrderKeepsOperations(h: Hash, ops: seq<Op>, index: nat)
    ensures Elements(OrderForReplica(h, ops, index)) == Elements(ops)
  {
    ReversedElements(ops);
    SortElements((a: Op, b: Op) => StrategyLess(h, a, b), ops);
    if ops != [] {
      var k := index % |ops|;
      assert ops == ops[..k] + ops[k..];
    }
  }

  lemma {:induction false} ReversedAt<T>(s: seq<T>)
    ensures |Reversed(s)| == |s| && multiset(Reversed(s)) == multiset(s)
    ensures forall k :: 0 <= k < |s| ==> Reversed(s)[k] == s[|s| - 1 - k]
  {
    if s != [] {
      ReversedAt(s[1..]);
      assert s == [s[0]] + s[1..];
    }
  }

  lemma StrategyOrdered(h: Hash)
    ensures WeakOrder((a: Op, b: Op) => StrategyLess(h, a, b))
  {
    var lt := (a: Op, b: Op) => StrategyLess(h, a, b);
    forall x ensures !lt(x, x) { StrategyTotal(h, x, x, x); }
    forall x, y, z | lt(x, y) && lt(y, z) ensures lt(x, z) { StrategyTotal(h, x, y, z); }
    forall x, y, z | lt(x, z) ensures lt(x, y) || lt(y, z) { StrategyTotal(h, x, y, z); }
  }

  lemma StrategyTotal(h: Hash, x: Op, y: Op, z: Op)
    ensures !StrategyLess(h, x, x)
    ensures StrategyLess(h, x, y) && StrategyLess(h, y, z) ==> StrategyLess(h, x, z)
    ensures StrategyLess(h, x, z) ==> StrategyLess(h, x, y) || StrategyLess(h, y, z)
  {
    Places(x.body.key, y.body.key, z.body.key);
    Places(x.body.nodeId, y.body.nodeId, z.body.nodeId);
    Places(h(x.body), h(y.body), h(z.body));
  }

  lemma Places(x: string, y: string, z: string)
    ensures !Less(x, x) && (Less(x, y) && Less(y, z) ==> Less(x, z)) && (Less(x, z) ==> Less(x, y) || Less(y, z))
    ensures (x != y ==> Less(x, y) || Less(y, x)) && (y != z ==> Less(y, z) || Less(z, y))
    ensures (Less(x, y) ==> !Less(y, x)) && (Less(y, z) ==> !Less(z, y)) && (x != z ==> Less(x, z) || Less(z, x))
  {
    StringsWeaklyOrdered();
    OneOfThree(x, y);
    OneOfThree(y, z);
    OneOfThree(x, z);
  }

  /** The four strategies: as listed, from the back, rotated by the replica's number, and by key with the latest first.
      None loses or repeats an operation. */
  lemma OrdersExact(h: Hash, ops: seq<Op>, index: nat)
    ensures
      var r := OrderForReplica(h, ops, index);
      && multiset(r) == multiset(ops) && |r| == |ops|
      && (index % 4 == 0 ==> r == ops)
      && (index % 4 == 1 ==> forall k :: 0 <= k < |r| ==> r[k] == ops[|ops| - 1 - k])
      && (index % 4 == 2 && ops != [] ==>
          var m := index % |ops|;
          forall k :: 0 <= k < |r| ==> r[k] == if k + m < |ops| then ops[k + m] else ops[k + m - |ops|])
      && (index % 4 == 3 ==> ByKeyLatestFirst(r))
  {
    if index % 4 == 1 { ReversedAt(ops); }
    if ops != [] && index % 4 == 2 { Rotated(ops, index % |ops|); }
    if ops != [] && index % 4 == 3 {
      ByStrategy(h, ops);
      assert ByKeyLatestFirst(OrderForReplica(h, ops, index));
    }
  }

  lemma Rotated<T>(s: seq<T>, m: nat)
    requires m < |s|
    ensures
      var r := s[m..] + s[..m];
      && multiset(r) == multiset(s) && |r| == |s|
      && forall k :: 0 <= k < |r| ==> r[k] == if k + m < |s| then s[k + m] else s[k + m - |s|]
  {
    assert s == s[..m] + s[m..];
  }

  ghost predicate ByKeyLatestFirst(r: seq<Op>)
  {
    forall i, j :: 0 <= i < j < |r| ==>
      && !Less(r[j].body.key, r[i].body.key)
      && (r[i].body.key == r[j].body.key ==> r[i].body.lamport >= r[j].body.lamport)
  }

  lemma ByStrategy(h: Hash, ops: seq<Op>)
    ensures ByKeyLatestFirst(Sort((a: Op, b: Op) => StrategyLess(h, a, b), ops))
  {
    var lt := (a: Op, b: Op) => StrategyLess(h, a, b);
    var r := Sort(lt, ops);
    StrategyOrdered(h);
    SortAscending(lt, ops);
    forall i, j | 0 <= i < j < |r|
      ensures !Less(r[j].body.key, r[i].body.key)
      ensures r[i].body.key == r[j].body.key ==> r[i].body.lamport >= r[j].body.lamport
    {
      assert !lt(r[j], r[i]);
    }
  }

  /** ops[start::step] */
  function Stride<T>(s: seq<T>, start: nat, step: nat): seq<T>
    requires step > 0
    decreases |s| - start
  {
    if start >= |s| then [] else [s[start]] + Stride(s, start + step, step)
  }

  lemma {:induction false} StrideElements<T>(s: seq<T>, start: nat, step: nat)
    requires step > 0
    ensures forall x :: x in Stride(s, start, step) ==> x in s
    decreases |s| - start
  {
    if start < |s| { StrideElements(s, start + step, step); }
  }

  /** It holds every step-th element, and none is left over. */
  lemma {:induction false} StrideAt<T>(s: seq<T>, start: nat, step: nat, k: nat)
    requires step > 0
    ensures k < |Stride(s, start, step)| <==> start + k * step < |s|
    ensures k < |Stride(s, start, step)| ==> Stride(s, start, step)[k] == s[start + k * step]
    decreases |s| - start
  {
    if start < |s| && k > 0 {
      StrideAt(s, start + step, step, k - 1);
      assert (k - 1) * step + step == k * step;
    } else {
      assert k * step >= 0;
    }
  }

  // ---- logs rebuilt from operations ----

  lemma RebuiltLog(h: Hash, ops: Log, s: seq<Op>)
    requires Keyed(h, ops) && Elements(s) == ops.Values
    ensures AddedAll(h, map[], s) == ops
  {
    forall a, b | a in ops.Values && b in ops.Values && h(a.body) == h(b.body) ensures a == b {
      var i :| i in ops && ops[i] == a;
      var j :| j in ops && ops[j] == b;
      assert i == j;
    }
    var none: Log := map[];
    assert none.Values + Elements(s) == ops.Values;
    AddedAllContents(h, none, s);
    LogDeterminedByOps(h, AddedAll(h, none, s), ops);
  }

  lemma {:induction false} AddedAllKeyed(h: Hash, ops: Log, s: seq<Op>)
    requires Keyed(h, ops)
    ensures Keyed(h, AddedAll(h, ops, s)) && AddedAll(h, ops, s).Values <= ops.Values + Elements(s)
  {
    if s != [] {
      var before, last := s[..|s| - 1], s[|s| - 1];
      AddedAllKeyed(h, ops, before);
      assert s == before + [last];
      var log := AddedAll(h, ops, before);
      forall o | o in Added(h, log, last).Values ensures o in log.Values + {last} {
        var i :| i in Added(h, log, last) && Added(h, log, last)[i] == o;
        assert (i in log && log[i] == o) || o == last;
      }
    }
  }

  // ---- reading a scenario ----

  /** The table of first sightings after n operations. */
  function FirstSeen(h: Hash, ops: seq<Op>, n: nat): Log
    requires n <= |ops|
  {
    AddedAll(h, map[], ops[..n])
  }

  lemma SeenStep(h: Hash, ops: seq<Op>, n: nat)
    requires n < |ops|
    ensures FirstSeen(h, ops, n + 1) == Added(h, FirstSeen(h, ops, n), ops[n])
  {
    assert ops[..n + 1][..n] == ops[..n];
  }

  /** The table holds the ids of the first n operations, each with the track that all its rows give it. */
  ghost predicate Answers(h: Hash, ops: seq<Op>, n: nat, seen: Log)
    requires n <= |ops|
  {
    && (forall id :: id in seen ==> exists j :: 0 <= j < n && h(ops[j].body) == id && ops[j].track == seen[id].track)
    && (forall j :: 0 <= j < n ==> h(ops[j].body) in seen && seen[h(ops[j].body)].track == ops[j].track)
  }

  lemma AnswersNext(h: Hash, ops: seq<Op>, n: nat, seen: Log)
    requires n < |ops| && Answers(h, ops, n, seen) && !Conflicts(h, ops, n)
    ensures Answers(h, ops, n + 1, Added(h, seen, ops[n]))
  {
    var last := ops[n];
    if h(last.body) in seen {
      var j :| 0 <= j < n && h(ops[j].body) == h(last.body) && ops[j].track == seen[h(last.body)].track;
    }
  }

  /** Without conflicts the table answers for every operation it was built from. */
  lemma {:induction false} SeenAnswers(h: Hash, ops: seq<Op>, n: nat)
    requires n <= |ops| && forall i :: 0 <= i < n ==> !Conflicts(h, ops, i)
    ensures Keyed(h, FirstSeen(h, ops, n)) && Answers(h, ops, n, FirstSeen(h, ops, n))
  {
    if n > 0 {
      SeenAnswers(h, ops, n - 1);
      SeenStep(h, ops, n - 1);
      AnswersNext(h, ops, n - 1, FirstSeen(h, ops, n - 1));
    }
  }

  lemma ConflictDetected(h: Hash, ops: seq<Op>, n: nat)
    requires n < |ops| && forall i :: 0 <= i < n ==> !Conflicts(h, ops, i)
    ensures
      var id := h(ops[n].body);
      Conflicts(h, ops, n) <==> id in FirstSeen(h, ops, n) && FirstSeen(h, ops, n)[id].track != ops[n].track
  {
    SeenAnswers(h, ops, n);
  }

  method NormalizeOperations(h: Hash, docId: string, replicas: int, rows: seq<Row>)
    returns (r: Result<(seq<(int, Op)>, seq<Op>, nat), SimulationError>)
    requires replicas > 0
    ensures !(1 <= |rows| <= MAX_OPERATIONS) ==> r == Failure(BadOperationCount)
    ensures 1 <= |rows| <= MAX_OPERATIONS ==> (r.Success? <==> Clean(h, docId, replicas, rows, |rows|))
    ensures 1 <= |rows| <= MAX_OPERATIONS && r.Failure? ==>
      exists i :: 0 <= i < |rows| && FirstError(h, docId, replicas, rows, i, r.error)
    ensures r.Success? ==>
      var log := AddedAll(h, map[], RowOps(docId, rows));
      && Keyed(h, log)
      && r.value.0 == Deliveries(docId, replicas, rows)
      && r.value.1 == InIdOrder(log)
      && r.value.2 + |log| == |rows|
  {
    if !(1 <= |rows| <= MAX_OPERATIONS) { return Failure(BadOperationCount); }
    ghost var ops := RowOps(docId, rows);
    forall i | 0 <= i < |rows| && RowError(h, docId, replicas, rows, i) == None ensures !Conflicts(h, ops, i) {}
    var delivered: seq<(int, Op)>, unique: Log, duplicates := [], map[], 0;
    for i := 0 to |rows|
      invariant Clean(h, docId, replicas, rows, i)
      invariant delivered == Deliveries(docId, replicas, rows)[..i]
      invariant unique == FirstSeen(h, ops, i) && duplicates + |unique| == i
    {
      var row := rows[i];
      var origin := if row.origin.Some? then row.origin.value else i % replicas;
      var operation := RowOp(docId, row);
      var id := h(operation.body);
      SeenStep(h, ops, i);
      ConflictDetected(h, ops, i);
      ghost var e := RowError(h, docId, replicas, rows, i);
      if !(0 <= row.lamport <= MAX_LAMPORT) {
        assert FirstError(h, docId, replicas, rows, i, e.value);
        return Failure(LamportOutsideBounds(i));
      }
      if !(0 <= origin < replicas) {
        assert FirstError(h, docId, replicas, rows, i, e.value);
        return Failure(OriginOutsideReplicas(i));
      }
      if id in unique && unique[id].track != operation.track {
        assert FirstError(h, docId, replicas, rows, i, e.value);
        return Failure(ConflictingTrack(i));
      }
      if id in unique {
        duplicates := duplicates + 1;
      } else {
        unique := unique[id := operation];
      }
      delivered := delivered + [(origin, operation)];
    }
    assert ops[..|rows|] == ops;
    SeenAnswers(h, ops, |rows|);
    var list := InOrder(unique);
    return Success((delivered, list, duplicates));
  }

  /** [unique[key] for key in sorted(unique)] */
  method InOrder(unique: Log) returns (list: seq<Op>)
    ensures list == InIdOrder(unique)
  {
    var ids := SortSet(unique.Keys);
    SortedContents(unique.Keys);
    list := seq(|ids|, k requires 0 <= k < |ids| && ids[k] in unique => unique[ids[k]]);
  }

  // ---- documents ----

  method Document(h: Hash, docId: string, s: seq<Op>) returns (d: CRDTDocument)
    requires forall k :: 0 <= k < |s| ==> s[k].body.docId == docId
    ensures fresh(d) && d.Valid() && d.opId == h && d.docId == docId && d.ops == AddedAll(h, map[], s)
  {
    d := new CRDTDocument(h, docId);
    assert s[..|s|] == s;
    var _ := d.MergeOps(s);
  }

  method TakeSnapshot(d: CRDTDocument, digest: Digest) returns (r: Snapshot)
    requires d.Valid()
    ensures r == SnapshotOf(d.opId, digest, d.ops)
  {
    var heads := d.CurrentHeads();
    var a := d.AuthorizedView();
    var o := d.ObservedView();
    r := Snapshot(|d.ops|, heads, a, o, digest(a), digest(o));
  }

  // ---- the sample checks ----

  ghost predicate OfDocument(docId: string, ops: seq<Op>)
  {
    forall k :: 0 <= k < |ops| ==> ops[k].body.docId == docId
  }

  lemma StridePiece(docId: string, ops: seq<Op>, start: nat, step: nat)
    requires step > 0 && OfDocument(docId, ops)
    ensures OfDocument(docId, Stride(ops, start, step))
  {
    StrideElements(ops, start, step);
    var t := Stride(ops, start, step);
    forall k | 0 <= k < |t| ensures t[k].body.docId == docId { assert t[k] in ops; }
  }

  function Piece(h: Hash, ops: seq<Op>, start: nat, step: nat): Log
    requires step > 0
  {
    AddedAll(h, map[], Stride(ops, start, step))
  }

  lemma PieceKeyed(h: Hash, ops: seq<Op>, start: nat, step: nat)
    requires step > 0
    ensures Keyed(h, Piece(h, ops, start, step)) && Piece(h, ops, start, step).Values <= Elements(ops)
  {
    var none: Log := map[];
    AddedAllKeyed(h, none, Stride(ops, start, step));
    StrideElements(ops, start, step);
  }

  lemma CopyByAllOps(h: Hash, docId: string, ops: Log)
    requires Keyed(h, ops) && forall i :: i in ops ==> ops[i].body.docId == docId
    ensures AddedAll(h, map[], InIdOrder(ops)) == ops
    ensures forall k :: 0 <= k < |InIdOrder(ops)| ==> InIdOrder(ops)[k].body.docId == docId
  {
    InIdOrderContents(ops);
    RebuiltLog(h, ops, InIdOrder(ops));
    forall k | 0 <= k < |InIdOrder(ops)| ensures InIdOrder(ops)[k].body.docId == docId {
      assert InIdOrder(ops)[k] in Elements(InIdOrder(ops));
    }
  }

  method CopyDocument(d: CRDTDocument) returns (c: CRDTDocument)
    requires d.Valid()
    ensures fresh(c) && c.Valid() && c.opId == d.opId && c.docId == d.docId && c.ops == d.ops
  {
    CopyByAllOps(d.opId, d.docId, d.ops);
    var all := d.AllOps();
    c := Document(d.opId, d.docId, all);
  }

  /** Whether the two halves give one snapshot merged either way round. */
  ghost predicate HalvesCommute(h: Hash, digest: Digest, ops: seq<Op>)
  {
    var a, b := Piece(h, ops, 0, 2), Piece(h, ops, 1, 2);
    && Keyed(h, Merged(a, b)) && Keyed(h, Merged(b, a))
    && SnapshotOf(h, digest, Merged(a, b)) == SnapshotOf(h, digest, Merged(b, a))
  }

  method CommutativityCheck(h: Hash, digest: Digest, docId: string, ops: seq<Op>) returns (ok: bool)
    requires OfDocument(docId, ops)
    ensures ok <==> HalvesCommute(h, digest, ops)
  {
    StridePiece(docId, ops, 0, 2);
    StridePiece(docId, ops, 1, 2);
    var left := Document(h, docId, Stride(ops, 0, 2));
    var right := Document(h, docId, Stride(ops, 1, 2));
    var firstThenSecond := CopyDocument(left);
    var _ := firstThenSecond.Merge(right);
    var secondThenFirst := CopyDocument(right);
    var _ := secondThenFirst.Merge(left);
    var ab := TakeSnapshot(firstThenSecond, digest);
    var ba := TakeSnapshot(secondThenFirst, digest);
    ok := ab == ba;
  }

  /** Halves of operations that agree wherever their ids do commute. */
  lemma CoherentHalvesCommute(h: Hash, digest: Digest, ops: seq<Op>)
    requires Coherent(h, Elements(ops))
    ensures HalvesCommute(h, digest, ops)
  {
    PieceKeyed(h, ops, 0, 2);
    PieceKeyed(h, ops, 1, 2);
    var a, b := Piece(h, ops, 0, 2), Piece(h, ops, 1, 2);
    forall i | i in a && i in b ensures a[i] == b[i] {
      assert a[i] in a.Values && b[i] in b.Values;
      assert a[i] in Elements(ops) && b[i] in Elements(ops);
    }
    MergeCommutesIff(a, b);
  }

  /** Three thirds merged in either grouping give one snapshot. */
  method AssociativityCheck(h: Hash, digest: Digest, docId: string, ops: seq<Op>) returns (ok: bool)
    requires OfDocument(docId, ops)
    ensures ok
  {
    StridePiece(docId, ops, 0, 3);
    StridePiece(docId, ops, 1, 3);
    StridePiece(docId, ops, 2, 3);
    var a := Document(h, docId, Stride(ops, 0, 3));
    var b := Document(h, docId, Stride(ops, 1, 3));
    var c := Document(h, docId, Stride(ops, 2, 3));
    MergeAssociativeIdempotent(a.ops, b.ops, c.ops);
    var left := CopyDocument(a);
    var _ := left.Merge(b);
    var _ := left.Merge(c);
    var bThenC := CopyDocument(b);
    var _ := bThenC.Merge(c);
    var right := CopyDocument(a);
    var _ := right.Merge(bThenC);
    var l := TakeSnapshot(left, digest);
    var r := TakeSnapshot(right, digest);
    ok := l == r;
  }

  // ---- the scenario ----

  /** One reconciled replica: all operations in the replica's own order, then all of them again. */
  method ReconcileReplica(h: Hash, digest: Digest, docId: string, unique: seq<Op>, index: nat, ghost log: Log)
    returns (snapshot: Snapshot, idempotent: bool)
    requires Keyed(h, log) && Elements(unique) == log.Values
    requires forall k :: 0 <= k < |unique| ==> unique[k].body.docId == docId
    ensures snapshot == SnapshotOf(h, digest, log) && idempotent
  {
    var order := OrderForReplica(h, unique, index);
    OrderKeepsOperations(h, unique, index);
    forall k | 0 <= k < |order| ensures order[k].body.docId == docId {
      assert order[k] in Elements(order);
      assert order[k] in unique;
    }
    var document := Document(h, docId, order);
    RebuiltLog(h, log, order);
    var before := TakeSnapshot(document, digest);
    var replayAdditions := 0;
    for k := 0 to |unique|
      invariant document.Valid() && document.ops == log && document.docId == docId && document.opId == h
      invariant replayAdditions == 0
    {
      assert unique[k] in log.Values;
      var added := document.AddOp(unique[k]);
      if added == Success(true) { replayAdditions := replayAdditions + 1; }
    }
    var after := TakeSnapshot(document, digest);
    idempotent := replayAdditions == 0 && before.authorizedDigest == after.authorizedDigest
      && before.observedDigest == after.observedDigest && before.heads == after.heads;
    snapshot := TakeSnapshot(document, digest);
  }

  ghost predicate Replicas(h: Hash, docId: string, ds: seq<CRDTDocument>)
    reads ds
  {
    && (forall p :: 0 <= p < |ds| ==> ds[p].Valid() && ds[p].opId == h && ds[p].docId == docId)
    && forall p, q :: 0 <= p < q < |ds| ==> ds[p] != ds[q]
  }

  method NewReplicas(h: Hash, docId: string, replicas: nat) returns (ds: seq<CRDTDocument>)
    ensures |ds| == replicas && Replicas(h, docId, ds)
    ensures forall p :: 0 <= p < |ds| ==> fresh(ds[p]) && ds[p].ops == map[]
  {
    ds := [];
    for n := 0 to replicas
      invariant |ds| == n && Replicas(h, docId, ds)
      invariant forall p :: 0 <= p < |ds| ==> fresh(ds[p]) && ds[p].ops == map[]
    {
      var d := new CRDTDocument(h, docId);
      ds := ds + [d];
    }
  }

  /** Delivers every operation to the replica it originates at. */
  method Deliver(h: Hash, docId: string, rows: seq<Row>, ds: seq<CRDTDocument>)
    requires Replicas(h, docId, ds) && |ds| > 0
    requires forall i :: 0 <= i < |rows| ==> 0 <= RowOrigin(|ds|, rows, i) < |ds|
    requires forall p :: 0 <= p < |ds| ==> ds[p].ops == map[]
    modifies ds
    ensures Replicas(h, docId, ds)
    ensures forall p :: 0 <= p < |ds| ==> ds[p].ops == AddedAll(h, map[], PartitionOps(docId, |ds|, rows, p, |rows|))
  {
    for i := 0 to |rows|
      invariant Replicas(h, docId, ds)
      invariant forall p :: 0 <= p < |ds| ==> ds[p].ops == AddedAll(h, map[], PartitionOps(docId, |ds|, rows, p, i))
    {
      var origin, op := RowOrigin(|ds|, rows, i), RowOp(docId, rows[i]);
      ghost var now := PartitionOps(docId, |ds|, rows, origin, i);
      assert (now + [op])[..|now|] == now;
      var _ := ds[origin].AddOp(op);
    }
  }

  method TakeSnapshots(h: Hash, digest: Digest, docId: string, ds: seq<CRDTDocument>) returns (r: seq<Snapshot>)
    requires Replicas(h, docId, ds)
    ensures |r| == |ds| && forall p :: 0 <= p < |ds| ==> r[p] == SnapshotOf(h, digest, ds[p].ops)
  {
    r := [];
    ghost var wanted := seq(|ds|, p requires 0 <= p < |ds| && ds[p].Valid() && ds[p].opId == h reads ds =>
      SnapshotOf(h, digest, ds[p].ops));
    for n := 0 to |ds|
      invariant r == wanted[..n]
    {
      var snapshot := TakeSnapshot(ds[n], digest);
      assert wanted[n] == snapshot;
      r := r + [snapshot];
    }
  }

  function ObservedDigest(s: Snapshot): string { s.observedDigest }

  function AuthorizedDigest(s: Snapshot): string { s.authorizedDigest }

  function HeadsOf(s: Snapshot): seq<string> { s.heads }

  /** {f(row) for row in rows} */
  function Image<T>(f: Snapshot -> T, rows: seq<Snapshot>): set<T>
  {
    set row | row in rows :: f(row)
  }

  lemma OneImage<T>(f: Snapshot -> T, rows: seq<Snapshot>)
    ensures |Image(f, rows)| == 1 <==> rows != [] && forall p :: 0 <= p < |rows| ==> f(rows[p]) == f(rows[0])
  {
    var s := Image(f, rows);
    if rows != [] {
      assert rows[0] in rows;
      var x := f(rows[0]);
      assert s == (s - {x}) + {x};
      if |s| == 1 {
        assert s - {x} == {};
        forall p | 0 <= p < |rows| ensures f(rows[p]) == x { assert rows[p] in rows && f(rows[p]) in s; }
      } else {
        var y :| y in s - {x};
        var row :| row in rows && f(row) == y;
        var p :| 0 <= p < |rows| && rows[p] == row;
      }
    }
  }

  predicate SameFingerprint(a: Snapshot, b: Snapshot)
  {
    a.observedDigest == b.observedDigest && a.authorizedDigest == b.authorizedDigest && a.heads == b.heads
  }

  /** One digest of each track and one list of heads among all replicas. */
  function Agreement(final: seq<Snapshot>): (ok: bool)
    ensures ok <==> final != [] && forall p :: 0 <= p < |final| ==> SameFingerprint(final[p], final[0])
  {
    OneImage(ObservedDigest, final);
    OneImage(AuthorizedDigest, final);
    OneImage(HeadsOf, final);
    |Image(ObservedDigest, final)| == 1 && |Image(AuthorizedDigest, final)| == 1 && |Image(HeadsOf, final)| == 1
  }

  /** The replicas after reconciliation, and whether they agree. */
  method Reconcile(h: Hash, digest: Digest, docId: string, replicas: nat, unique: seq<Op>, ghost log: Log)
    returns (final: seq<Snapshot>, convergence: bool, idempotence: bool)
    requires replicas > 0 && Keyed(h, log) && Elements(unique) == log.Values
    requires forall k :: 0 <= k < |unique| ==> unique[k].body.docId == docId
    ensures convergence && idempotence && |final| == replicas
    ensures forall p :: 0 <= p < replicas ==> final[p] == SnapshotOf(h, digest, log)
  {
    final, idempotence := [], true;
    ghost var wanted := SnapshotOf(h, digest, log);
    for index := 0 to replicas
      invariant |final| == index && idempotence
      invariant forall p :: 0 <= p < index ==> final[p] == wanted
    {
      var snapshot, idempotent := ReconcileReplica(h, digest, docId, unique, index, log);
      idempotence := idempotence && idempotent;
      final := final + [snapshot];
    }
    convergence := Agreement(final);
  }

  lemma UniqueOperations(h: Hash, docId: string, rows: seq<Row>)
    requires Keyed(h, AddedAll(h, map[], RowOps(docId, rows)))
    ensures
      var log := AddedAll(h, map[], RowOps(docId, rows));
      && Elements(InIdOrder(log)) == log.Values && OfDocument(docId, InIdOrder(log))
      && Coherent(h, Elements(InIdOrder(log)))
  {
    var none: Log, ops := map[], RowOps(docId, rows);
    var log := AddedAll(h, none, ops);
    var unique := InIdOrder(log);
    AddedAllKeyed(h, none, ops);
    InIdOrderContents(log);
    forall k | 0 <= k < |unique| ensures unique[k].body.docId == docId {
      assert unique[k] in Elements(unique);
      assert unique[k] in ops;
    }
    forall a, b | a in Elements(unique) && b in Elements(unique) && h(a.body) == h(b.body) ensures a == b {
      var i :| i in log && log[i] == a;
      var j :| j in log && log[j] == b;
    }
  }

  lemma UniqueIds(h: Hash, log: Log)
    requires Keyed(h, log)
    ensures IdsOf(h, InIdOrder(log)) == Sorted(log.Keys)
  {
    SortedContents(log.Keys);
    forall k | 0 <= k < |Sorted(log.Keys)| ensures h(InIdOrder(log)[k].body) == Sorted(log.Keys)[k] {
      assert Sorted(log.Keys)[k] in log;
    }
  }

  function IdsOf(h: Hash, ops: seq<Op>): seq<string>
  {
    seq(|ops|, k requires 0 <= k < |ops| => h(ops[k].body))
  }

  method InitialPartitions(h: Hash, digest: Digest, s: Scenario) returns (initial: seq<Snapshot>)
    requires Accepted(h, s)
    ensures |initial| == s.replicas
    ensures forall p :: 0 <= p < s.replicas ==>
      Keyed(h, PartitionLog(h, s, p)) && initial[p] == SnapshotOf(h, digest, PartitionLog(h, s, p))
  {
    var partitions := NewReplicas(h, s.docId, s.replicas);
    forall i | 0 <= i < |s.operations| ensures 0 <= RowOrigin(s.replicas, s.operations, i) < s.replicas {
      assert RowError(h, s.docId, s.replicas, s.operations, i) == None;
    }
    Deliver(h, s.docId, s.operations, partitions);
    initial := TakeSnapshots(h, digest, s.docId, partitions);
  }

  /** No valid scenario diverges: whatever is accepted converges, and every check holds. */
  method SimulateScenario(h: Hash, digest: Digest, s: Scenario) returns (r: Result<Report, SimulationError>)
    ensures r.Success? <==> Accepted(h, s)
    ensures r.Success? ==> ConvergedReport(h, digest, s, r.value)
    ensures r.Failure? ==> Refused(h, s, r.error)
  {
    if !(2 <= s.replicas <= MAX_REPLICAS) { return Failure(BadReplicaCount); }
    var normal := NormalizeOperations(h, s.docId, s.replicas, s.operations);
    if normal.Failure? { return Failure(normal.error); }
    var (delivered, unique, duplicates) := normal.value;
    ghost var log := ScenarioLog(h, s);
    UniqueOperations(h, s.docId, s.operations);
    UniqueIds(h, log);
    var initial := InitialPartitions(h, digest, s);
    var final, convergence, idempotence := Reconcile(h, digest, s.docId, s.replicas, unique, log);
    CoherentHalvesCommute(h, digest, unique);
    var commutativity := CommutativityCheck(h, digest, s.docId, unique);
    var associativity := AssociativityCheck(h, digest, s.docId, unique);
    var checks := Checks(convergence, idempotence, commutativity, associativity);
    var status := if convergence && idempotence && commutativity && associativity then "CONVERGED" else "DIVERGED";
    return Success(Report(status, |delivered|, IdsOf(h, unique), duplicates, initial, final, checks));
  }
}
