// What the lab's report shows, said of the rows of the scenario.
module LabLaws {
  import opened Prelude
  import opened Orders
  import opened Crdt
  import opened Lab

  /** op_id of the operation that a row describes. */
  function IdOf(h: Hash, docId: string, row: Row): string
  {
    h(Body(docId, row.key, row.value, row.lamport, row.nodeId, row.deletion))
  }

  /** The track a row puts its operation on; OBSERVED unless it says otherwise. */
  function TrackOf(row: Row): Track { if row.track == None then OBSERVED else row.track.value }

  /** Of two rows the second is the later one: by clock, then by node id, then by op_id. */
  predicate Earlier(h: Hash, docId: string, a: Row, b: Row)
  {
    || a.lamport < b.lamport
    || (a.lamport == b.lamport && Less(a.nodeId, b.nodeId))
    || (a.lamport == b.lamport && a.nodeId == b.nodeId && Less(IdOf(h, docId, a), IdOf(h, docId, b)))
  }

  /** Among these rows, row i is on one of the tracks, and is the first with its op_id. */
  ghost predicate Counts(h: Hash, docId: string, rows: seq<Row>, from: set<nat>, tracks: set<Track>, i: nat)
  {
    && i in from && i < |rows| && TrackOf(rows[i]) in tracks
    && forall j :: j in from && j < i ==> IdOf(h, docId, rows[j]) != IdOf(h, docId, rows[i])
  }

  /** Among these rows, row i is the latest for its key. */
  ghost predicate Latest(h: Hash, docId: string, rows: seq<Row>, from: set<nat>, tracks: set<Track>, i: nat)
  {
    && Counts(h, docId, rows, from, tracks, i)
    && forall j: nat :: Counts(h, docId, rows, from, tracks, j) && rows[j].key == rows[i].key && j != i ==>
        Earlier(h, docId, rows[j], rows[i])
  }

  /** The latest of these rows for the key sets it to the value. */
  ghost predicate Shown(h: Hash, docId: string, rows: seq<Row>, from: set<nat>, tracks: set<Track>, key: string,
                        value: Value)
  {
    exists i: nat :: Latest(h, docId, rows, from, tracks, i) && rows[i].key == key && !rows[i].deletion
      && rows[i].value == value
  }

  // ---- acceptance ----

  /** A scenario is accepted exactly when its size and its rows' clocks and origins are within bounds, and rows with one
      op_id agree on the track. */
  lemma AcceptedExactly(h: Hash, s: Scenario)
    ensures Accepted(h, s) <==>
      && 2 <= s.replicas <= MAX_REPLICAS && 1 <= |s.operations| <= MAX_OPERATIONS
      && (forall i :: 0 <= i < |s.operations| ==>
          && 0 <= s.operations[i].lamport <= MAX_LAMPORT
          && (s.operations[i].origin.Some? ==> 0 <= s.operations[i].origin.value < s.replicas))
      && forall j, i :: 0 <= i < |s.operations| && 0 <= j < i ==>
          IdOf(h, s.docId, s.operations[j]) == IdOf(h, s.docId, s.operations[i]) ==>
          TrackOf(s.operations[j]) == TrackOf(s.operations[i])
  {
    if s.replicas > 0 {
      forall i | 0 <= i < |s.operations|
        ensures RowError(h, s.docId, s.replicas, s.operations, i) == None <==>
          && 0 <= s.operations[i].lamport <= MAX_LAMPORT
          && (s.operations[i].origin.Some? ==> 0 <= s.operations[i].origin.value < s.replicas)
          && forall j :: 0 <= j < i && IdOf(h, s.docId, s.operations[j]) == IdOf(h, s.docId, s.operations[i]) ==>
               TrackOf(s.operations[j]) == TrackOf(s.operations[i])
      {
        RowClean(h, s.docId, s.replicas, s.operations, i);
      }
    }
  }

  /** What is wrong with a row: its clock first, then its origin, then an earlier row with its op_id on another
      track. */
  lemma RowClean(h: Hash, docId: string, replicas: int, rows: seq<Row>, i: nat)
    requires replicas > 0 && i < |rows|
    ensures RowError(h, docId, replicas, rows, i) == Some(LamportOutsideBounds(i)) <==>
      !(0 <= rows[i].lamport <= MAX_LAMPORT)
    ensures RowError(h, docId, replicas, rows, i) == Some(OriginOutsideReplicas(i)) <==>
      && 0 <= rows[i].lamport <= MAX_LAMPORT
      && rows[i].origin.Some? && !(0 <= rows[i].origin.value < replicas)
    ensures RowError(h, docId, replicas, rows, i) == None <==>
      && 0 <= rows[i].lamport <= MAX_LAMPORT
      && (rows[i].origin.Some? ==> 0 <= rows[i].origin.value < replicas)
      && forall j :: 0 <= j < i && IdOf(h, docId, rows[j]) == IdOf(h, docId, rows[i]) ==>
           TrackOf(rows[j]) == TrackOf(rows[i])
  {
    var ops := RowOps(docId, rows);
    forall j | 0 <= j <= i ensures h(ops[j].body) == IdOf(h, docId, rows[j]) && ops[j].track == TrackOf(rows[j]) {}
  }

  // ---- views ----

  /** The operations of these rows, in the order of the rows. */
  ghost predicate Lists(docId: string, rows: seq<Row>, from: set<nat>, at: seq<nat>, ops: seq<Op>)
  {
    && |at| == |ops| && Elements(at) == from
    && (forall k :: 0 <= k < |at| ==> at[k] < |rows| && ops[k] == RowOp(docId, rows[at[k]]))
    && forall k, l :: 0 <= k < l < |at| ==> at[k] < at[l]
  }

  lemma RowOpSays(h: Hash, docId: string, row: Row)
    ensures h(RowOp(docId, row).body) == IdOf(h, docId, row) && RowOp(docId, row).track == TrackOf(row)
    ensures RowOp(docId, row).body.key == row.key && RowOp(docId, row).body.value == row.value
    ensures RowOp(docId, row).body.deletion == row.deletion
  {
  }

  lemma {:induction false} FirstIndex(h: Hash, ops: seq<Op>, id: string, n: nat) returns (k: nat)
    requires n < |ops| && h(ops[n].body) == id
    ensures k <= n && FirstWith(h, ops, id, k)
  {
    if j :| 0 <= j < n && h(ops[j].body) == id { k := FirstIndex(h, ops, id, j); } else { k := n; }
  }

  /** The entry of a log built from rows is the first row with its id. */
  lemma EntryOf(h: Hash, docId: string, rows: seq<Row>, from: set<nat>, at: seq<nat>, ops: seq<Op>, id: string)
    returns (i: nat)
    requires Lists(docId, rows, from, at, ops) && id in AddedAll(h, map[], ops)
    ensures i in from && i < |rows| && IdOf(h, docId, rows[i]) == id
    ensures forall j :: j in from && j < i ==> IdOf(h, docId, rows[j]) != id
    ensures AddedAll(h, map[], ops)[id] == RowOp(docId, rows[i])
  {
    AddedAllExact(h, map[], ops, id);
    var n :| 0 <= n < |ops| && h(ops[n].body) == id;
    var k := FirstIndex(h, ops, id, n);
    i := at[k];
    RowOpSays(h, docId, rows[i]);
    forall j | j in from && j < i ensures IdOf(h, docId, rows[j]) != id {
      var l :| 0 <= l < |at| && at[l] == j;
      RowOpSays(h, docId, rows[j]);
      assert l < k;
    }
  }

  lemma RowIsEntry(h: Hash, docId: string, rows: seq<Row>, from: set<nat>, at: seq<nat>, ops: seq<Op>, i: nat)
    requires Lists(docId, rows, from, at, ops) && i in from
    requires i < |rows| && forall j :: j in from && j < i ==> IdOf(h, docId, rows[j]) != IdOf(h, docId, rows[i])
    ensures IdOf(h, docId, rows[i]) in AddedAll(h, map[], ops)
    ensures AddedAll(h, map[], ops)[IdOf(h, docId, rows[i])] == RowOp(docId, rows[i])
  {
    var id := IdOf(h, docId, rows[i]);
    var k :| 0 <= k < |at| && at[k] == i;
    AddedAllExact(h, map[], ops, id);
    RowOpSays(h, docId, rows[i]);
    var e := EntryOf(h, docId, rows, from, at, ops, id);
  }

  lemma LastShown(h: Hash, docId: string, rows: seq<Row>, from: set<nat>, at: seq<nat>, ops: seq<Op>,
                  tracks: set<Track>, i: nat)
    requires Lists(docId, rows, from, at, ops) && Latest(h, docId, rows, from, tracks, i)
    ensures Last(AddedAll(h, map[], ops), tracks, IdOf(h, docId, rows[i]))
    ensures AddedAll(h, map[], ops)[IdOf(h, docId, rows[i])] == RowOp(docId, rows[i])
  {
    var log, id := AddedAll(h, map[], ops), IdOf(h, docId, rows[i]);
    RowIsEntry(h, docId, rows, from, at, ops, i);
    RowOpSays(h, docId, rows[i]);
    forall x | x in log && x != id && log[x].track in tracks && log[x].body.key == log[id].body.key
      ensures exists j: nat ::
        j < |rows| && log[x] == RowOp(docId, rows[j]) && IdOf(h, docId, rows[j]) == x
        && Earlier(h, docId, rows[j], rows[i])
    {
      var j := EntryOf(h, docId, rows, from, at, ops, x);
      RowOpSays(h, docId, rows[j]);
      assert Counts(h, docId, rows, from, tracks, j);
    }
  }

  lemma ShownLast(h: Hash, docId: string, rows: seq<Row>, from: set<nat>, at: seq<nat>, ops: seq<Op>,
                  tracks: set<Track>, id: string) returns (i: nat)
    requires Lists(docId, rows, from, at, ops) && Last(AddedAll(h, map[], ops), tracks, id)
    ensures Latest(h, docId, rows, from, tracks, i) && AddedAll(h, map[], ops)[id] == RowOp(docId, rows[i])
  {
    var log := AddedAll(h, map[], ops);
    i := EntryOf(h, docId, rows, from, at, ops, id);
    RowOpSays(h, docId, rows[i]);
    forall j: nat | Counts(h, docId, rows, from, tracks, j) && rows[j].key == rows[i].key && j != i
      ensures Earlier(h, docId, rows[j], rows[i])
    {
      RowIsEntry(h, docId, rows, from, at, ops, j);
      RowOpSays(h, docId, rows[j]);
      assert IdOf(h, docId, rows[j]) != id;
    }
  }

  /** The view of a log built from rows shows what the rows show. */
  lemma ViewShows(h: Hash, docId: string, rows: seq<Row>, from: set<nat>, at: seq<nat>, ops: seq<Op>,
                  tracks: set<Track>, key: string, value: Value)
    requires Lists(docId, rows, from, at, ops) && Keyed(h, AddedAll(h, map[], ops))
    ensures
      var view := View(h, AddedAll(h, map[], ops), tracks);
      key in view && view[key] == value <==> Shown(h, docId, rows, from, tracks, key, value)
  {
    var log := AddedAll(h, map[], ops);
    ViewExact(h, log, tracks, key, value);
    if x :| Last(log, tracks, x) && log[x].body.key == key && !log[x].body.deletion && log[x].body.value == value {
      var i := ShownLast(h, docId, rows, from, at, ops, tracks, x);
      RowOpSays(h, docId, rows[i]);
    }
    if Shown(h, docId, rows, from, tracks, key, value) {
      var i: nat :| Latest(h, docId, rows, from, tracks, i) && rows[i].key == key && !rows[i].deletion
        && rows[i].value == value;
      LastShown(h, docId, rows, from, at, ops, tracks, i);
      RowOpSays(h, docId, rows[i]);
    }
  }

  // ---- the report ----

  /** The numbers of the first n rows. */
  function UpTo(n: nat): (r: set<nat>)
    ensures forall i: nat :: i in r <==> i < n
  {
    if n == 0 then {} else UpTo(n - 1) + {n - 1}
  }

  /** The rows that originate at replica p: those that say so, and every one in turn of those that do not say. */
  function FirstAt(replicas: int, rows: seq<Row>, p: nat): set<nat>
    requires replicas > 0
  {
    set i: nat | i < |rows| && p == if rows[i].origin.Some? then rows[i].origin.value else i % replicas
  }

  lemma AllListed(docId: string, rows: seq<Row>) returns (at: seq<nat>)
    ensures Lists(docId, rows, UpTo(|rows|), at, RowOps(docId, rows))
  {
    at := seq(|rows|, i requires 0 <= i < |rows| => i);
    forall i: nat | i < |rows| ensures i in at { assert at[i] == i; }
  }

  lemma {:induction false} PartListed(docId: string, replicas: int, rows: seq<Row>, p: nat, n: nat)
    returns (at: seq<nat>)
    requires replicas > 0 && n <= |rows|
    ensures |at| == |PartitionOps(docId, replicas, rows, p, n)|
    ensures forall i: nat :: i in at <==> i < n && RowOrigin(replicas, rows, i) == p
    ensures forall k :: 0 <= k < |at| ==>
      at[k] < n && PartitionOps(docId, replicas, rows, p, n)[k] == RowOp(docId, rows[at[k]])
    ensures forall k, l :: 0 <= k < l < |at| ==> at[k] < at[l]
  {
    at := [];
    if n > 0 {
      var before := PartListed(docId, replicas, rows, p, n - 1);
      at := before;
      if RowOrigin(replicas, rows, n - 1) == p { at := NextListed(before, n - 1); }
    }
  }

  lemma NextListed(before: seq<nat>, n: nat) returns (at: seq<nat>)
    requires (forall k :: 0 <= k < |before| ==> before[k] < n)
    requires forall k, l :: 0 <= k < l < |before| ==> before[k] < before[l]
    ensures at == before + [n] && forall k, l :: 0 <= k < l < |at| ==> at[k] < at[l]
    ensures forall i :: i in at <==> i in before || i == n
  {
    at := before + [n];
  }

  lemma PartIsListed(docId: string, replicas: int, rows: seq<Row>, p: nat) returns (at: seq<nat>)
    requires replicas > 0
    ensures Lists(docId, rows, FirstAt(replicas, rows, p), at, PartitionOps(docId, replicas, rows, p, |rows|))
  {
    at := PartListed(docId, replicas, rows, p, |rows|);
    forall i ensures i in Elements(at) <==> i in FirstAt(replicas, rows, p) {}
  }

  /** After reconciliation each replica shows, on either track, what the latest rows of the whole scenario set. */
  lemma FinalShows(h: Hash, digest: Digest, s: Scenario, r: Report, p: nat, key: string, value: Value)
    requires Accepted(h, s) && ConvergedReport(h, digest, s, r) && p < s.replicas
    ensures
      var final, all := r.final[p], UpTo(|s.operations|);
      && (key in final.observedView && final.observedView[key] == value <==>
          Shown(h, s.docId, s.operations, all, {AUTHORIZED, OBSERVED}, key, value))
      && (key in final.authorizedView && final.authorizedView[key] == value <==>
          Shown(h, s.docId, s.operations, all, {AUTHORIZED}, key, value))
      && final.observedDigest == digest(final.observedView) && final.authorizedDigest == digest(final.authorizedView)
  {
    var ops := RowOps(s.docId, s.operations);
    var at := AllListed(s.docId, s.operations);
    ViewShows(h, s.docId, s.operations, UpTo(|s.operations|), at, ops, VISIBLE, key, value);
    ViewShows(h, s.docId, s.operations, UpTo(|s.operations|), at, ops, {AUTHORIZED}, key, value);
  }

  /** Before it, each replica shows what the latest of its own rows set. */
  lemma InitialShows(h: Hash, digest: Digest, s: Scenario, r: Report, p: nat, key: string, value: Value)
    requires Accepted(h, s) && ConvergedReport(h, digest, s, r) && p < s.replicas
    ensures
      var initial, own := r.initial[p], FirstAt(s.replicas, s.operations, p);
      && (key in initial.observedView && initial.observedView[key] == value <==>
          Shown(h, s.docId, s.operations, own, {AUTHORIZED, OBSERVED}, key, value))
      && (key in initial.authorizedView && initial.authorizedView[key] == value <==>
          Shown(h, s.docId, s.operations, own, {AUTHORIZED}, key, value))
  {
    var n := |s.operations|;
    var at := PartIsListed(s.docId, s.replicas, s.operations, p);
    var ops, own := PartitionOps(s.docId, s.replicas, s.operations, p, n), FirstAt(s.replicas, s.operations, p);
    assert Keyed(h, PartitionLog(h, s, p));
    ViewShows(h, s.docId, s.operations, own, at, ops, VISIBLE, key, value);
    ViewShows(h, s.docId, s.operations, own, at, ops, {AUTHORIZED}, key, value);
  }

  /** A row with an op_id of its own that is not revoked, and whose clock is above that of every other row for its
      key. */
  ghost predicate Newest(h: Hash, docId: string, rows: seq<Row>, i: nat)
    requires i < |rows|
  {
    && TrackOf(rows[i]) != REVOKED
    && forall j :: 0 <= j < |rows| && j != i ==>
        && IdOf(h, docId, rows[j]) != IdOf(h, docId, rows[i])
        && (rows[j].key == rows[i].key ==> rows[j].lamport < rows[i].lamport)
  }

  lemma NewestIsLatest(h: Hash, docId: string, rows: seq<Row>, i: nat, k: nat)
    requires i < |rows| && Newest(h, docId, rows, i)
    ensures Latest(h, docId, rows, UpTo(|rows|), {AUTHORIZED, OBSERVED}, i)
    ensures Latest(h, docId, rows, UpTo(|rows|), {AUTHORIZED, OBSERVED}, k) && rows[k].key == rows[i].key ==> k == i
  {
    assert Counts(h, docId, rows, UpTo(|rows|), {AUTHORIZED, OBSERVED}, i);
  }

  /** In particular, such a row has its value in every replica's final view, or has removed its key from it. */
  lemma LatestRowDecides(h: Hash, digest: Digest, s: Scenario, r: Report, p: nat, i: nat)
    requires Accepted(h, s) && ConvergedReport(h, digest, s, r) && p < s.replicas
    requires i < |s.operations| && Newest(h, s.docId, s.operations, i)
    ensures
      var row, view := s.operations[i], r.final[p].observedView;
      if row.deletion then row.key !in view else row.key in view && view[row.key] == row.value
  {
    var row, view := s.operations[i], r.final[p].observedView;
    NewestIsLatest(h, s.docId, s.operations, i, i);
    FinalShows(h, digest, s, r, p, row.key, row.value);
    if row.deletion && row.key in view {
      FinalShows(h, digest, s, r, p, row.key, view[row.key]);
      var k: nat :| Latest(h, s.docId, s.operations, UpTo(|s.operations|), {AUTHORIZED, OBSERVED}, k)
        && s.operations[k].key == row.key && !s.operations[k].deletion;
      NewestIsLatest(h, s.docId, s.operations, i, k);
    }
  }

  /** The report names the op_ids of the rows, each once, and counts the rows that only repeat one. */
  lemma IdsReported(h: Hash, digest: Digest, s: Scenario, r: Report)
    requires Accepted(h, s) && ConvergedReport(h, digest, s, r)
    ensures
      var ids := set i | 0 <= i < |s.operations| :: IdOf(h, s.docId, s.operations[i]);
      && r.operationIds == Sorted(ids) && r.inputCount == |s.operations| == |ids| + r.duplicates
      && forall p :: 0 <= p < s.replicas ==> r.final[p].operationCount == |ids|
  {
    var ids := set i | 0 <= i < |s.operations| :: IdOf(h, s.docId, s.operations[i]);
    var log, ops := ScenarioLog(h, s), RowOps(s.docId, s.operations);
    forall id ensures id in log <==> id in ids {
      AddedAllExact(h, map[], ops, id);
      if k :| 0 <= k < |ops| && h(ops[k].body) == id { RowOpSays(h, s.docId, s.operations[k]); }
      if i :| 0 <= i < |s.operations| && IdOf(h, s.docId, s.operations[i]) == id {
        RowOpSays(h, s.docId, s.operations[i]);
        assert h(ops[i].body) == id;
      }
    }
    assert log.Keys == ids;
  }

  /** Heads: the op_ids of the latest rows. */
  lemma HeadsReported(h: Hash, digest: Digest, s: Scenario, r: Report, p: nat, id: string)
    requires Accepted(h, s) && ConvergedReport(h, digest, s, r) && p < s.replicas
    ensures id in r.final[p].heads <==> exists i: nat ::
      Latest(h, s.docId, s.operations, UpTo(|s.operations|), {AUTHORIZED, OBSERVED}, i)
      && IdOf(h, s.docId, s.operations[i]) == id
  {
    var ops, all, visible := RowOps(s.docId, s.operations), UpTo(|s.operations|), {AUTHORIZED, OBSERVED};
    var at := AllListed(s.docId, s.operations);
    HeadsExact(h, ScenarioLog(h, s), id);
    if Last(ScenarioLog(h, s), visible, id) {
      var i := ShownLast(h, s.docId, s.operations, all, at, ops, visible, id);
      RowOpSays(h, s.docId, s.operations[i]);
    }
    if i: nat :| Latest(h, s.docId, s.operations, all, visible, i) && IdOf(h, s.docId, s.operations[i]) == id {
      LastShown(h, s.docId, s.operations, all, at, ops, visible, i);
    }
  }
}
