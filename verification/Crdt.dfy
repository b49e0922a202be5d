// The op-log LWW map with two tracks (szl_mesh.crdt).
module Crdt {
  import opened Prelude
  import opened Orders

  datatype Track = AUTHORIZED | OBSERVED | REVOKED

  /** A JSON value, by its canonical text. */
  type Value = string

  /** The identity-bearing fields of an operation: exactly those that op_id hashes. */
  datatype Body = Body(docId: string, key: string, value: Value, lamport: int, nodeId: string, deletion: bool)

  datatype Op = Op(body: Body, track: Track)

  /** compute_op_id: SHA-256 over the canonical bytes of a body. Nothing is assumed about it. */
  type Hash = Body -> string

  type Log = map<string, Op>

  const VISIBLE: set<Track> := {AUTHORIZED, OBSERVED}

  // ---- the order of operations ----

  /** a.order_key < b.order_key, on (lamport, node_id, op_id). */
  predicate Before(h: Hash, a: Body, b: Body)
  {
    || a.lamport < b.lamport
    || (a.lamport == b.lamport && Less(a.nodeId, b.nodeId))
    || (a.lamport == b.lamport && a.nodeId == b.nodeId && Less(h(a), h(b)))
  }

  lemma BeforeIrreflexive(h: Hash, a: Body)
    ensures !Before(h, a, a)
  {
    LessIrreflexive(a.nodeId);
    LessIrreflexive(h(a));
  }

  lemma BeforeTransitive(h: Hash, a: Body, b: Body, c: Body)
    requires Before(h, a, b) && Before(h, b, c)
    ensures Before(h, a, c)
  {
    if Less(a.nodeId, b.nodeId) && Less(b.nodeId, c.nodeId) { LessTransitive(a.nodeId, b.nodeId, c.nodeId); }
    if Less(h(a), h(b)) && Less(h(b), h(c)) { LessTransitive(h(a), h(b), h(c)); }
  }

  /** Different op_ids are always ordered: no freedom from collisions is needed. */
  lemma BeforeTotal(h: Hash, a: Body, b: Body)
    requires h(a) != h(b)
    ensures Before(h, a, b) || Before(h, b, a)
  {
    LessTotal(a.nodeId, b.nodeId);
    LessTotal(h(a), h(b));
  }

  // ---- logs ----

  ghost predicate Keyed(h: Hash, ops: Log)
  {
    forall i :: i in ops ==> h(ops[i].body) == i
  }

  /** A log is determined by the set of operations in it. */
  lemma LogDeterminedByOps(h: Hash, a: Log, b: Log)
    requires Keyed(h, a) && Keyed(h, b) && a.Values == b.Values
    ensures a == b
  {
    forall i | i in a ensures i in b && a[i] == b[i] { assert a[i] in b.Values; }
    forall i | i in b ensures i in a { assert b[i] in a.Values; }
  }

  /** add_op: the first operation seen under an id stays. */
  function Added(h: Hash, ops: Log, op: Op): Log
  {
    if h(op.body) in ops then ops else ops[h(op.body) := op]
  }

  function AddedAll(h: Hash, ops: Log, s: seq<Op>): Log
  {
    if s == [] then ops else Added(h, AddedAll(h, ops, s[..|s| - 1]), s[|s| - 1])
  }

  /** set_op_track */
  function Retracked(ops: Log, i: string, track: Track): Log
  {
    if i in ops then ops[i := ops[i].(track := track)] else ops
  }

  /** merge: set union, in which this log's entry wins. */
  function Merged(ops: Log, other: Log): Log { other + ops }

  /** Operations that agree whenever their ids do. */
  ghost predicate Coherent(h: Hash, s: set<Op>)
  {
    forall a, b :: a in s && b in s && h(a.body) == h(b.body) ==> a == b
  }

  lemma {:induction false} AddedAllContents(h: Hash, ops: Log, s: seq<Op>)
    requires Keyed(h, ops) && Coherent(h, ops.Values + Elements(s))
    ensures Keyed(h, AddedAll(h, ops, s)) && AddedAll(h, ops, s).Values == ops.Values + Elements(s)
  {
    if s != [] {
      var before, last := s[..|s| - 1], s[|s| - 1];
      assert s == before + [last];
      assert Elements(s) == Elements(before) + {last};
      AddedAllContents(h, ops, before);
      AddedContents(h, AddedAll(h, ops, before), last);
    }
  }

  ghost predicate FirstWith(h: Hash, s: seq<Op>, id: string, k: nat)
    requires k < |s|
  {
    h(s[k].body) == id && forall j :: 0 <= j < k ==> h(s[j].body) != id
  }

  /** Under each id stays the entry the log had, or else the first operation that came with the id. */
  lemma {:induction false} AddedAllExact(h: Hash, ops: Log, s: seq<Op>, id: string)
    ensures id in AddedAll(h, ops, s) <==> id in ops || exists k :: 0 <= k < |s| && h(s[k].body) == id
    ensures id in ops ==> AddedAll(h, ops, s)[id] == ops[id]
    ensures forall k :: id !in ops && 0 <= k < |s| && FirstWith(h, s, id, k) ==>
      id in AddedAll(h, ops, s) && AddedAll(h, ops, s)[id] == s[k]
  {
    if s != [] {
      var rest, last := s[..|s| - 1], s[|s| - 1];
      AddedAllExact(h, ops, rest, id);
      assert forall k :: 0 <= k < |rest| ==> rest[k] == s[k];
    }
  }

  lemma AddedContents(h: Hash, log: Log, last: Op)
    requires Keyed(h, log) && Coherent(h, log.Values + {last})
    ensures Keyed(h, Added(h, log, last)) && Added(h, log, last).Values == log.Values + {last}
  {
    var i, next := h(last.body), Added(h, log, last);
    if i in log {
      assert log[i] in log.Values && log[i] == last;
    } else {
      assert next[i] == last;
      forall o | o in log.Values ensures o in next.Values {
        var j :| j in log && log[j] == o;
        assert next[j] == o;
      }
    }
  }

  // ---- winners and views ----

  function Candidates(ops: Log, tracks: set<Track>, key: string): set<string>
  {
    set i | i in ops && ops[i].track in tracks && ops[i].body.key == key
  }

  /** Entry i is the greatest of entries s in the order of operations. */
  ghost predicate Greatest(h: Hash, ops: Log, s: set<string>, i: string)
    requires s <= ops.Keys
  {
    i in s && forall j :: j in s && j != i ==> Before(h, ops[j].body, ops[i].body)
  }

  lemma {:induction false} GreatestExists(h: Hash, ops: Log, s: set<string>)
    requires Keyed(h, ops) && s <= ops.Keys && s != {}
    ensures exists i :: Greatest(h, ops, s, i)
    decreases |s|
  {
    var x :| x in s;
    if s == {x} {
      assert Greatest(h, ops, s, x);
    } else {
      var rest := s - {x};
      assert s == rest + {x};
      GreatestExists(h, ops, rest);
      var m :| Greatest(h, ops, rest, m);
      BeforeTotal(h, ops[m].body, ops[x].body);
      if Before(h, ops[x].body, ops[m].body) {
        assert Greatest(h, ops, s, m);
      } else {
        forall j | j in s && j != x ensures Before(h, ops[j].body, ops[x].body) {
          if j != m { BeforeTransitive(h, ops[j].body, ops[m].body, ops[x].body); }
        }
        assert Greatest(h, ops, s, x);
      }
    }
  }

  lemma GreatestUnique(h: Hash, ops: Log, s: set<string>, i: string, j: string)
    requires s <= ops.Keys && Greatest(h, ops, s, i) && Greatest(h, ops, s, j)
    ensures i == j
  {
    var a, b := ops[i].body, ops[j].body;
    BeforeIrreflexive(h, a);
    if Before(h, a, b) && Before(h, b, a) { BeforeTransitive(h, a, b, a); }
  }

  function KeysOf(ops: Log, tracks: set<Track>): set<string>
  {
    set i | i in ops && ops[i].track in tracks :: ops[i].body.key
  }

  /** The id of the operation that decides a key. */
  ghost function Winner(h: Hash, ops: Log, tracks: set<Track>, key: string): (i: string)
    requires Keyed(h, ops) && key in KeysOf(ops, tracks)
    ensures Greatest(h, ops, Candidates(ops, tracks, key), i)
  {
    var s := Candidates(ops, tracks, key);
    var x :| x in ops && ops[x].track in tracks && ops[x].body.key == key;
    assert x in s;
    GreatestExists(h, ops, s);
    var i :| Greatest(h, ops, s, i);
    i
  }

  /** The map a log stands for: for each key the value of its greatest operation, unless that deletes. */
  ghost function View(h: Hash, ops: Log, tracks: set<Track>): map<string, Value>
    requires Keyed(h, ops)
  {
    map k | k in KeysOf(ops, tracks) && !ops[Winner(h, ops, tracks, k)].body.deletion
      :: ops[Winner(h, ops, tracks, k)].body.value
  }

  ghost function WinnerIds(h: Hash, ops: Log, tracks: set<Track>): set<string>
    requires Keyed(h, ops)
  {
    set k | k in KeysOf(ops, tracks) :: Winner(h, ops, tracks, k)
  }

  /** heads(): the sorted ids of the per-key winners among operations that are not revoked. */
  ghost function Heads(h: Hash, ops: Log): seq<string>
    requires Keyed(h, ops)
  {
    Sorted(WinnerIds(h, ops, VISIBLE))
  }

  /** Of the operations of its key on these tracks, entry i comes last: by clock, then by node id, then by
      its own id. */
  ghost predicate Last(ops: Log, tracks: set<Track>, i: string)
  {
    && i in ops && ops[i].track in tracks
    && forall j :: j in ops && j != i && ops[j].track in tracks && ops[j].body.key == ops[i].body.key ==>
      var a, b := ops[j].body, ops[i].body;
      || a.lamport < b.lamport
      || (a.lamport == b.lamport && Less(a.nodeId, b.nodeId))
      || (a.lamport == b.lamport && a.nodeId == b.nodeId && Less(j, i))
  }

  lemma WinnerIsLast(h: Hash, ops: Log, tracks: set<Track>, i: string)
    requires Keyed(h, ops)
    ensures Last(ops, tracks, i) <==>
      i in ops && ops[i].body.key in KeysOf(ops, tracks) && i == Winner(h, ops, tracks, ops[i].body.key)
  {
    if i in ops && ops[i].body.key in KeysOf(ops, tracks) {
      var k := ops[i].body.key;
      var s, w := Candidates(ops, tracks, k), Winner(h, ops, tracks, k);
      if Last(ops, tracks, i) {
        assert Greatest(h, ops, s, i);
        GreatestUnique(h, ops, s, i, w);
      }
      if i == w { forall j | j in s && j != i ensures Before(h, ops[j].body, ops[i].body) {} }
    }
  }

  /** The view maps a key to a value exactly when the last operation for the key sets that value. */
  lemma ViewExact(h: Hash, ops: Log, tracks: set<Track>, key: string, value: Value)
    requires Keyed(h, ops)
    ensures key in View(h, ops, tracks) && View(h, ops, tracks)[key] == value <==>
      exists i :: Last(ops, tracks, i) && ops[i].body.key == key && !ops[i].body.deletion && ops[i].body.value == value
  {
    if key in KeysOf(ops, tracks) { WinnerIsLast(h, ops, tracks, Winner(h, ops, tracks, key)); }
    forall i | Last(ops, tracks, i) && ops[i].body.key == key
      ensures key in KeysOf(ops, tracks) && i == Winner(h, ops, tracks, key)
    {
      WinnerIsLast(h, ops, tracks, i);
    }
  }

  /** The heads are the operations that come last for their keys among those not revoked, by ascending id. */
  lemma HeadsExact(h: Hash, ops: Log, i: string)
    requires Keyed(h, ops)
    ensures i in Heads(h, ops) <==> Last(ops, {AUTHORIZED, OBSERVED}, i)
    ensures forall m, n :: 0 <= m < n < |Heads(h, ops)| ==> Less(Heads(h, ops)[m], Heads(h, ops)[n])
  {
    SortedContents(WinnerIds(h, ops, VISIBLE));
    WinnerIsLast(h, ops, VISIBLE, i);
    if i in WinnerIds(h, ops, VISIBLE) {
      var k :| k in KeysOf(ops, VISIBLE) && Winner(h, ops, VISIBLE, k) == i;
      assert ops[i].body.key == k;
    }
  }

  ghost function InIdOrder(ops: Log): (r: seq<Op>)
  {
    SortedContents(ops.Keys);
    var ids := Sorted(ops.Keys);
    seq(|ids|, k requires 0 <= k < |ids| && ids[k] in ops => ops[ids[k]])
  }

  lemma InIdOrderContents(ops: Log)
    ensures Elements(InIdOrder(ops)) == ops.Values
  {
    SortedContents(ops.Keys);
    var ids, r := Sorted(ops.Keys), InIdOrder(ops);
    forall o | o in ops.Values ensures o in r {
      var i :| i in ops && ops[i] == o;
      var k :| 0 <= k < |ids| && ids[k] == i;
      assert r[k] == o;
    }
  }

  // ---- what views depend on ----

  ghost predicate AllVisible(ops: Log)
  {
    forall i :: i in ops ==> ops[i].track in VISIBLE
  }

  /** The same operations, whatever their tracks. */
  ghost predicate SameBodies(a: Log, b: Log)
  {
    a.Keys == b.Keys && forall i :: i in a ==> a[i].body == b[i].body
  }

  lemma WinnersAgree(h: Hash, a: Log, b: Log, tracks: set<Track>)
    requires Keyed(h, a) && SameBodies(a, b)
    requires forall i :: i in a ==> (a[i].track in tracks <==> b[i].track in tracks)
    ensures Keyed(h, b) && View(h, a, tracks) == View(h, b, tracks)
      && WinnerIds(h, a, tracks) == WinnerIds(h, b, tracks)
  {
    forall k ensures Candidates(a, tracks, k) == Candidates(b, tracks, k) {}
    forall k | k in KeysOf(a, tracks) ensures k in KeysOf(b, tracks) {
      var i :| i in a && a[i].track in tracks && a[i].body.key == k;
      assert i in b && b[i].track in tracks && b[i].body.key == k;
    }
    forall k | k in KeysOf(b, tracks) ensures k in KeysOf(a, tracks) {
      var i :| i in b && b[i].track in tracks && b[i].body.key == k;
      assert i in a && a[i].track in tracks && a[i].body.key == k;
    }
    forall k | k in KeysOf(a, tracks) ensures Winner(h, a, tracks, k) == Winner(h, b, tracks, k) {
      var i, j := Winner(h, a, tracks, k), Winner(h, b, tracks, k);
      assert Greatest(h, a, Candidates(a, tracks, k), j);
      GreatestUnique(h, a, Candidates(a, tracks, k), i, j);
    }
  }

  /** Replicas that hold the same operations agree on the OBSERVED view and on the heads even when they
      classify those operations differently, as long as neither has revoked one. */
  lemma ObservedIgnoresClassification(h: Hash, a: Log, b: Log)
    requires Keyed(h, a) && SameBodies(a, b) && AllVisible(a) && AllVisible(b)
    ensures Keyed(h, b) && View(h, a, VISIBLE) == View(h, b, VISIBLE) && Heads(h, a) == Heads(h, b)
  {
    WinnersAgree(h, a, b, VISIBLE);
  }

  /** They agree on the AUTHORIZED view as well when they authorize the same operations. */
  lemma AuthorizedNeedsAgreement(h: Hash, a: Log, b: Log)
    requires Keyed(h, a) && SameBodies(a, b)
    requires forall i :: i in a ==> (a[i].track == AUTHORIZED <==> b[i].track == AUTHORIZED)
    ensures Keyed(h, b) && View(h, a, {AUTHORIZED}) == View(h, b, {AUTHORIZED})
  {
    WinnersAgree(h, a, b, {AUTHORIZED});
  }

  // ---- merge as a join ----

  /** Merge commutes exactly when the two logs agree on the operations they share, tracks included. */
  lemma MergeCommutesIff(a: Log, b: Log)
    ensures Merged(a, b) == Merged(b, a) <==> forall i :: i in a && i in b ==> a[i] == b[i]
  {
    if Merged(a, b) == Merged(b, a) {
      forall i | i in a && i in b ensures a[i] == b[i] {
        assert Merged(a, b)[i] == a[i] && Merged(b, a)[i] == b[i];
      }
    }
  }

  /** Merge is associative and absorbs a repeated log on all logs. */
  lemma MergeAssociativeIdempotent(a: Log, b: Log, c: Log)
    ensures Merged(Merged(a, b), c) == Merged(a, Merged(b, c))
    ensures Merged(Merged(a, b), b) == Merged(a, b) && Merged(a, a) == a
  {
  }

  /** An operation whose clock is above every other's decides its key. */
  lemma LatestWins(h: Hash, ops: Log, tracks: set<Track>, i: string)
    requires Keyed(h, ops) && i in ops && ops[i].track in tracks
    requires forall j :: j in ops && j != i ==> ops[j].body.lamport < ops[i].body.lamport
    ensures ops[i].body.key in KeysOf(ops, tracks) && Winner(h, ops, tracks, ops[i].body.key) == i
  {
    var k := ops[i].body.key;
    assert Greatest(h, ops, Candidates(ops, tracks, k), i);
    GreatestUnique(h, ops, Candidates(ops, tracks, k), i, Winner(h, ops, tracks, k));
  }

  // ---- the loops of the document class, one step at a time ----

  /** The merge after the entries in `done` have been copied. */
  ghost predicate PartMerged(mine: Log, theirs: Log, done: set<string>, ops: Log)
    requires done <= theirs.Keys
  {
    && ops.Keys == mine.Keys + done
    && forall i :: i in ops ==> ops[i] == if i in mine then mine[i] else theirs[i]
  }

  lemma MergeStep(h: Hash, mine: Log, theirs: Log, done: set<string>, ops: Log, i: string)
    requires Keyed(h, theirs) && i in theirs && i !in done && done <= theirs.Keys
    requires PartMerged(mine, theirs, done, ops)
    ensures PartMerged(mine, theirs, done + {i}, Added(h, ops, theirs[i]))
  {
  }

  lemma PartMergedAll(mine: Log, theirs: Log, ops: Log)
    requires PartMerged(mine, theirs, theirs.Keys, ops)
    ensures ops == Merged(mine, theirs)
  {
    assert ops.Keys == Merged(mine, theirs).Keys;
  }

  lemma OneMore(done: set<string>, base: set<string>, i: string)
    requires i !in done
    ensures |(done + {i}) - base| == |done - base| + if i in base then 0 else 1
  {
    if i in base {
      assert (done + {i}) - base == done - base;
    } else {
      assert (done + {i}) - base == (done - base) + {i};
    }
  }

  /** Index of the first operation of another document, or the length. */
  function FirstForeign(docId: string, s: seq<Op>): (n: nat)
    ensures n <= |s| && (n < |s| ==> s[n].body.docId != docId)
    ensures forall k :: 0 <= k < n ==> s[k].body.docId == docId
  {
    if s == [] || s[0].body.docId != docId then 0 else 1 + FirstForeign(docId, s[1..])
  }

  /** The table of per-key leaders is right for the entries in `done`. */
  ghost predicate Leads(h: Hash, ops: Log, tracks: set<Track>, done: set<string>, winners: map<string, Op>)
  {
    forall k :: if k in winners
      then h(winners[k].body) in ops && ops[h(winners[k].body)] == winners[k]
        && Greatest(h, ops, Candidates(ops, tracks, k) * done, h(winners[k].body))
      else Candidates(ops, tracks, k) * done == {}
  }

  function Advanced(h: Hash, tracks: set<Track>, winners: map<string, Op>, op: Op): map<string, Op>
  {
    if op.track in tracks && (op.body.key !in winners || Before(h, winners[op.body.key].body, op.body))
    then winners[op.body.key := op]
    else winners
  }

  lemma LeadsStep(h: Hash, ops: Log, tracks: set<Track>, done: set<string>, winners: map<string, Op>, i: string)
    requires Keyed(h, ops) && Leads(h, ops, tracks, done, winners) && i in ops && i !in done
    ensures Leads(h, ops, tracks, done + {i}, Advanced(h, tracks, winners, ops[i]))
  {
    var op, next := ops[i], Advanced(h, tracks, winners, ops[i]);
    forall k ensures if k in next
      then h(next[k].body) in ops && ops[h(next[k].body)] == next[k]
        && Greatest(h, ops, Candidates(ops, tracks, k) * (done + {i}), h(next[k].body))
      else Candidates(ops, tracks, k) * (done + {i}) == {}
    {
      var c := Candidates(ops, tracks, k);
      if i !in c {
        assert c * (done + {i}) == c * done;
      } else {
        assert c * (done + {i}) == c * done + {i};
        if k in winners { LeaderStep(h, ops, c * done, h(winners[k].body), i); }
      }
    }
  }

  lemma LeaderStep(h: Hash, ops: Log, s: set<string>, lead: string, i: string)
    requires Keyed(h, ops) && s <= ops.Keys && Greatest(h, ops, s, lead) && i in ops && i !in s
    ensures Greatest(h, ops, s + {i}, if Before(h, ops[lead].body, ops[i].body) then i else lead)
  {
    BeforeTotal(h, ops[lead].body, ops[i].body);
    if Before(h, ops[lead].body, ops[i].body) {
      forall j | j in s && j != lead ensures Before(h, ops[j].body, ops[i].body) {
        BeforeTransitive(h, ops[j].body, ops[lead].body, ops[i].body);
      }
    }
  }

  lemma LeadsWin(h: Hash, ops: Log, tracks: set<Track>, winners: map<string, Op>)
    requires Keyed(h, ops) && Leads(h, ops, tracks, ops.Keys, winners)
    ensures winners.Keys == KeysOf(ops, tracks)
    ensures forall k :: k in winners ==>
      h(winners[k].body) == Winner(h, ops, tracks, k) && winners[k] == ops[Winner(h, ops, tracks, k)]
  {
    forall k ensures Candidates(ops, tracks, k) * ops.Keys == Candidates(ops, tracks, k) {}
    forall k | k in KeysOf(ops, tracks) ensures k in winners {
      var i :| i in ops && ops[i].track in tracks && ops[i].body.key == k;
      assert i in Candidates(ops, tracks, k) * ops.Keys;
    }
    forall k | k in winners ensures k in KeysOf(ops, tracks) {
      assert h(winners[k].body) in Candidates(ops, tracks, k);
    }
    forall k | k in winners ensures h(winners[k].body) == Winner(h, ops, tracks, k) {
      GreatestUnique(h, ops, Candidates(ops, tracks, k), h(winners[k].body), Winner(h, ops, tracks, k));
    }
  }

  datatype DocError = WrongDocument

  class CRDTDocument {
    const docId: string
    const opId: Hash
    var ops: Log

    ghost predicate Valid()
      reads this
    {
      Keyed(opId, ops) && forall i :: i in ops ==> ops[i].body.docId == docId
    }

    constructor (opId: Hash, docId: string)
      ensures Valid() && this.opId == opId && this.docId == docId && ops == map[]
    {
      this.opId := opId;
      this.docId := docId;
      ops := map[];
    }

    method AddOp(op: Op) returns (r: Result<bool, DocError>)
      requires Valid()
      modifies this
      ensures Valid()
      ensures op.body.docId != docId ==> r == Failure(WrongDocument) && ops == old(ops)
      ensures op.body.docId == docId ==>
        r == Success(opId(op.body) !in old(ops)) && ops == Added(opId, old(ops), op)
      ensures op.body.docId == docId ==>
        ops == if opId(op.body) in old(ops) then old(ops) else old(ops)[opId(op.body) := op]
    {
      if op.body.docId != docId { return Failure(WrongDocument); }
      var id := opId(op.body);
      if id in ops { return Success(false); }
      ops := ops[id := op];
      return Success(true);
    }

    method SetOpTrack(id: string, track: Track)
      requires Valid()
      modifies this
      ensures Valid() && ops == Retracked(old(ops), id, track)
      ensures ops == if id in old(ops) then old(ops)[id := Op(old(ops)[id].body, track)] else old(ops)
    {
      if id !in ops { return; }
      var existing := ops[id];
      ops := ops[id := Op(existing.body, track)];
    }

    method Merge(other: CRDTDocument) returns (r: Result<nat, DocError>)
      requires Valid() && other.Valid() && other.opId == opId
      modifies this
      ensures Valid()
      ensures other.docId != docId ==> r == Failure(WrongDocument) && ops == old(ops)
      ensures other.docId == docId ==>
        && ops == Merged(old(ops), old(other.ops))
        && r == Success(|old(other.ops).Keys - old(ops).Keys|)
        && ops.Keys == old(ops).Keys + old(other.ops).Keys
        && forall i :: i in ops ==> ops[i] == if i in old(ops) then old(ops)[i] else old(other.ops)[i]
    {
      if other.docId != docId { return Failure(WrongDocument); }
      ghost var mine := ops;
      var theirs := other.ops;
      var added, done := 0, {};
      assert done - mine.Keys == {};
      while done != theirs.Keys
        invariant Valid() && done <= theirs.Keys
        invariant PartMerged(mine, theirs, done, ops)
        invariant added == |done - mine.Keys|
        decreases theirs.Keys - done
      {
        var i :| i in theirs && i !in done;
        MergeStep(opId, mine, theirs, done, ops, i);
        OneMore(done, mine.Keys, i);
        var isNew := AddOp(theirs[i]);
        if isNew == Success(true) { added := added + 1; }
        done := done + {i};
      }
      PartMergedAll(mine, theirs, ops);
      return Success(added);
    }

    /** Operations are added until one belongs to another document. */
    method MergeOps(s: seq<Op>) returns (r: Result<nat, DocError>)
      requires Valid()
      modifies this
      ensures Valid()
      ensures ops == AddedAll(opId, old(ops), s[..FirstForeign(docId, s)])
      ensures if FirstForeign(docId, s) < |s| then r == Failure(WrongDocument)
        else r.Success? && |old(ops)| + r.value == |ops|
    {
      var added := 0;
      for k := 0 to |s|
        invariant Valid() && k <= FirstForeign(docId, s)
        invariant ops == AddedAll(opId, old(ops), s[..k])
        invariant |old(ops)| + added == |ops|
      {
        assert s[..k + 1][..k] == s[..k];
        var isNew := AddOp(s[k]);
        if isNew.Failure? { return Failure(WrongDocument); }
        if isNew.value { added := added + 1; }
      }
      assert s[..|s|] == s;
      return Success(added);
    }

    /** The loop shared by _materialise and heads: the greatest operation of each key. */
    method CollectWinners(tracks: set<Track>) returns (winners: map<string, Op>)
      requires Valid()
      ensures winners.Keys == KeysOf(ops, tracks)
      ensures forall k :: k in winners ==>
        opId(winners[k].body) == Winner(opId, ops, tracks, k) && winners[k] == ops[Winner(opId, ops, tracks, k)]
    {
      winners := map[];
      var todo := ops.Keys;
      ghost var done: set<string> := {};
      while todo != {}
        invariant done == ops.Keys - todo
        invariant Leads(opId, ops, tracks, done, winners)
        decreases todo
      {
        var i :| i in todo;
        LeadsStep(opId, ops, tracks, done, winners, i);
        var op := ops[i];
        if op.track in tracks {
          if op.body.key !in winners || Before(opId, winners[op.body.key].body, op.body) {
            winners := winners[op.body.key := op];
          }
        }
        todo := todo - {i};
        done := done + {i};
      }
      LeadsWin(opId, ops, tracks, winners);
    }

    method Materialise(tracks: set<Track>) returns (out: map<string, Value>)
      requires Valid()
      ensures out == View(opId, ops, tracks)
    {
      var winners := CollectWinners(tracks);
      out := map k | k in winners && !winners[k].body.deletion :: winners[k].body.value;
    }

    method AuthorizedView() returns (out: map<string, Value>)
      requires Valid()
      ensures out == View(opId, ops, {AUTHORIZED})
    {
      out := Materialise({AUTHORIZED});
    }

    method ObservedView() returns (out: map<string, Value>)
      requires Valid()
      ensures out == View(opId, ops, VISIBLE)
    {
      out := Materialise(VISIBLE);
    }

    method CurrentHeads() returns (r: seq<string>)
      requires Valid()
      ensures r == Heads(opId, ops)
    {
      var winners := CollectWinners(VISIBLE);
      var ids, todo := [], winners.Keys;
      while todo != {}
        invariant todo <= winners.Keys
        invariant forall x :: x in ids <==> exists k :: k in winners && k !in todo && opId(winners[k].body) == x
        invariant Distinct(ids)
        decreases todo
      {
        var k :| k in todo;
        var id := opId(winners[k].body);
        assert forall k' :: k' in winners && opId(winners[k'].body) == id ==> k' == k;
        assert id !in ids;
        ids := ids + [id];
        todo := todo - {k};
      }
      assert Elements(ids) == WinnerIds(opId, ops, VISIBLE);
      SortGivesSorted(ids);
      r := Sort(Less, ids);
    }

    /** all_ops(): the operations in the order of their ids. */
    method AllOps() returns (r: seq<Op>)
      requires Valid()
      ensures r == InIdOrder(ops) && Elements(r) == ops.Values
      ensures forall m, n :: 0 <= m < n < |r| ==> Less(opId(r[m].body), opId(r[n].body))
    {
      InIdOrderContents(ops);
      var ids := SortSet(ops.Keys);
      var log := ops;
      SortedContents(ops.Keys);
      r := seq(|ids|, k requires 0 <= k < |ids| && ids[k] in log => log[ids[k]]);
    }
  }
}
