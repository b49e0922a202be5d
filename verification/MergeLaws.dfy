// The merge is a join: it depends on which snapshots there are, picks the best of each key, and may be done in rounds.
module MergeLaws {
  import opened Prelude
  import opened Orders
  import opened VectorClocks
  import opened SnapshotMerge

  // ---- the order of the request ----

  lemma NodeOrderStrict()
    ensures WeakOrder(ByNode)
  {
    StringsWeaklyOrdered();
  }

  ghost predicate DistinctNodes(snapshots: seq<Snapshot>)
  {
    forall i, j :: 0 <= i < j < |snapshots| ==> snapshots[i].nodeId != snapshots[j].nodeId
  }

  ghost predicate SameSnapshots(a: seq<Snapshot>, b: seq<Snapshot>) { forall s :: s in a <==> s in b }

  lemma SameNodeSameSnapshot(snapshots: seq<Snapshot>, s: Snapshot, t: Snapshot)
    requires DistinctNodes(snapshots) && s in snapshots && t in snapshots && s.nodeId == t.nodeId
    ensures s == t
  {
  }

  /** Sorting a request puts its snapshots in strictly ascending order of node, and loses none. */
  lemma ArrangedStrictly(request: seq<Snapshot>)
    requires DistinctNodes(request)
    ensures StrictlyAscending(ByNode, Arranged(request)) && SameSnapshots(Arranged(request), request)
  {
    var r := Arranged(request);
    NodeOrderStrict();
    SortAscending(ByNode, request);
    SortElements(ByNode, request);
    assert Distinct(request);
    DistinctByMultiset(request, r);
    forall i, j | 0 <= i < j < |r| ensures Less(r[i].nodeId, r[j].nodeId) {
      assert r[i] in r && r[j] in r && r[i] != r[j];
      if r[i].nodeId == r[j].nodeId { SameNodeSameSnapshot(request, r[i], r[j]); }
      LessTotal(r[i].nodeId, r[j].nodeId);
      assert !ByNode(r[j], r[i]);
    }
  }

  /** The merge of two listings of the same snapshots is the same, in every part of the output. */
  lemma OrderIrrelevant(d: Digest, rd: RecordDigest, a: seq<Snapshot>, b: seq<Snapshot>, tombstones: bool)
    requires ValidRequest(a) && ValidRequest(b) && SameSnapshots(a, b)
    ensures BodyOf(d, rd, Arranged(a), tombstones) == BodyOf(d, rd, Arranged(b), tombstones)
  {
    ArrangedStrictly(a);
    ArrangedStrictly(b);
    NodeOrderStrict();
    AscendingUnique(ByNode, Arranged(a), Arranged(b));
  }

  // ---- which register is selected ----

  /** No candidate beats it, and among its equals it comes from the least node. */
  ghost predicate Selects(d: Digest, request: seq<Snapshot>, key: string, w: Candidate)
  {
    && IsCandidate(request, key, w)
    && forall c :: IsCandidate(request, key, c) ==>
        !Beats(d, c.register, w.register) && (SameRank(d, c.register, w.register) && c != w ==> Less(w.node, c.node))
  }

  predicate FromEarlierNode(a: Candidate, b: Candidate) { Less(a.node, b.node) }

  /** The candidates for a key come in strictly ascending order of node. */
  lemma {:induction false} CandidatesAscend(snapshots: seq<Snapshot>, key: string)
    requires StrictlyAscending(ByNode, snapshots) && forall s :: s in snapshots ==> UniqueKeys(s)
    ensures StrictlyAscending(FromEarlierNode, CandidatesFor(snapshots, key))
  {
    if snapshots != [] {
      var rest, last := snapshots[..|snapshots| - 1], snapshots[|snapshots| - 1];
      CandidatesAscend(rest, key);
      assert last in snapshots && UniqueKeys(last);
      AtMostOne(last.nodeId, last.registers, key);
      var before, added := CandidatesFor(rest, key), CandidatesIn(last.nodeId, last.registers, key);
      forall i | 0 <= i < |before| ensures added != [] ==> FromEarlierNode(before[i], added[0]) {
        CandidatesExact(rest, key, before[i]);
        var s :| s in rest && s.nodeId == before[i].node && before[i].register in s.registers;
        var k :| 0 <= k < |rest| && rest[k] == s;
        assert ByNode(snapshots[k], last);
        if added != [] { CandidatesInExact(last.nodeId, last.registers, key, added[0]); }
      }
    }
  }

  lemma {:induction false} AtMostOne(node: string, registers: seq<Register>, key: string)
    requires forall i, j :: 0 <= i < j < |registers| ==> registers[i].key != registers[j].key
    ensures |CandidatesIn(node, registers, key)| <= 1
  {
    if registers != [] {
      var rest, last := registers[..|registers| - 1], registers[|registers| - 1];
      AtMostOne(node, rest, key);
      forall c | c in CandidatesIn(node, rest, key) ensures last.key != key {
        CandidatesInExact(node, rest, key, c);
        var i :| 0 <= i < |rest| && rest[i] == c.register;
        assert registers[i].key == key;
      }
      assert CandidatesIn(node, rest, key) != [] ==> CandidatesIn(node, rest, key)[0] in CandidatesIn(node, rest, key);
    }
  }

  lemma SelectsOne(d: Digest, request: seq<Snapshot>, key: string, v: Candidate, w: Candidate)
    requires Selects(d, request, key, v) && Selects(d, request, key, w)
    ensures v == w
  {
    BeatsTotal(d, v.register, w.register);
    StringsWeaklyOrdered();
    if v != w { LessIrreflexive(v.node); }
  }

  lemma SameCandidates(a: seq<Snapshot>, b: seq<Snapshot>, key: string, c: Candidate)
    requires SameSnapshots(a, b)
    ensures IsCandidate(a, key, c) <==> IsCandidate(b, key, c)
  {
  }

  /** The winner of a key is the one candidate that the request's snapshots select, whatever their order. */
  lemma WinnerExact(d: Digest, request: seq<Snapshot>, key: string, w: Candidate)
    requires ValidRequest(request)
    ensures
      var cs := CandidatesFor(Arranged(request), key);
      cs != [] && w == Winner(d, cs) <==> Selects(d, request, key, w)
  {
    var cs := CandidatesFor(Arranged(request), key);
    ArrangedStrictly(request);
    forall c ensures c in cs <==> IsCandidate(request, key, c) {
      CandidatesExact(Arranged(request), key, c);
      SameCandidates(Arranged(request), request, key, c);
    }
    if cs != [] {
      CandidatesAscend(Arranged(request), key);
      FirstBestSelects(d, request, key, cs);
      if Selects(d, request, key, w) { SelectsOne(d, request, key, w, Winner(d, cs)); }
    }
  }

  lemma FirstBestSelects(d: Digest, request: seq<Snapshot>, key: string, cs: seq<Candidate>)
    requires cs != [] && forall c :: c in cs <==> IsCandidate(request, key, c)
    requires StrictlyAscending(FromEarlierNode, cs)
    ensures Selects(d, request, key, Winner(d, cs))
  {
    var b := FirstBest(d, cs);
    FirstBestWins(d, cs);
    forall c | IsCandidate(request, key, c)
      ensures !Beats(d, c.register, cs[b].register)
      ensures SameRank(d, c.register, cs[b].register) && c != cs[b] ==> Less(cs[b].node, c.node)
    {
      assert c in cs;
      var j :| 0 <= j < |cs| && cs[j] == c;
      BeatsTotal(d, cs[b].register, cs[j].register);
      assert b < j ==> FromEarlierNode(cs[b], cs[j]);
    }
  }

  ghost predicate Contributes(d: Digest, tombstones: bool, snapshots: seq<Snapshot>, key: string, x: Selected)
  {
    x in SelectedIn(d, tombstones, CandidatesFor(snapshots, key))
  }

  lemma {:induction false} SelectedExact(d: Digest, tombstones: bool, snapshots: seq<Snapshot>, keys: seq<string>,
                                         x: Selected)
    ensures x in AllSelected(d, tombstones, snapshots, keys) <==>
      exists key :: key in keys && Contributes(d, tombstones, snapshots, key, x)
  {
    if keys != [] {
      var rest, last := keys[..|keys| - 1], keys[|keys| - 1];
      SelectedExact(d, tombstones, snapshots, rest, x);
      SelectedLast(d, tombstones, snapshots, keys, x);
      assert forall key :: key in keys <==> key in rest || key == last;
    }
  }

  lemma SelectedLast(d: Digest, tombstones: bool, snapshots: seq<Snapshot>, keys: seq<string>, x: Selected)
    requires keys != []
    ensures x in AllSelected(d, tombstones, snapshots, keys) <==>
      || x in AllSelected(d, tombstones, snapshots, keys[..|keys| - 1])
      || Contributes(d, tombstones, snapshots, keys[|keys| - 1], x)
  {
  }

  lemma ContributesExact(d: Digest, tombstones: bool, snapshots: seq<Snapshot>, key: string, x: Selected)
    ensures Contributes(d, tombstones, snapshots, key, x) <==>
      var cs := CandidatesFor(snapshots, key);
      && x.register.key == key && cs != [] && Winner(d, cs) == Candidate(x.fromNode, x.register)
      && x.valueDigest == d(x.register.value) && (x.register.tombstone ==> tombstones)
  {
    var cs := CandidatesFor(snapshots, key);
    if cs != [] { CandidatesExact(snapshots, key, Winner(d, cs)); }
  }

  /** The output registers: for every key the selected one, with its node and digest, left out only if it is a
      tombstone and tombstones were not asked for. */
  lemma RegistersExact(d: Digest, rd: RecordDigest, request: seq<Snapshot>, tombstones: bool, x: Selected)
    requires ValidRequest(request)
    ensures x in BodyOf(d, rd, Arranged(request), tombstones).registers <==>
      && Selects(d, request, x.register.key, Candidate(x.fromNode, x.register))
      && x.valueDigest == d(x.register.value) && (x.register.tombstone ==> tombstones)
  {
    var snapshots, key := Arranged(request), x.register.key;
    var keys := Sorted(KeysOf(snapshots));
    SortedContents(KeysOf(snapshots));
    SelectedExact(d, tombstones, snapshots, keys, x);
    forall k ensures Contributes(d, tombstones, snapshots, k, x) ==> k == key {
      ContributesExact(d, tombstones, snapshots, k, x);
    }
    ContributesExact(d, tombstones, snapshots, key, x);
    KeyHasCandidates(snapshots, key);
    WinnerExact(d, request, key, Candidate(x.fromNode, x.register));
  }

  /** A register gives way to another: it has an earlier logical time; or as late a time and a lesser writer; or the
      same writer and a lesser digest; or the same digest and only the other is a tombstone; or nothing of this differs
      and the other's node is the lesser one. */
  ghost predicate GivesWay(d: Digest, c: Register, node: string, r: Register, fromNode: string)
  {
    || c.logicalTime < r.logicalTime
    || (c.logicalTime == r.logicalTime && Less(c.writer, r.writer))
    || (c.logicalTime == r.logicalTime && c.writer == r.writer && Less(d(c.value), d(r.value)))
    || (c.logicalTime == r.logicalTime && c.writer == r.writer && d(c.value) == d(r.value)
        && !c.tombstone && r.tombstone)
    || (c.logicalTime == r.logicalTime && c.writer == r.writer && d(c.value) == d(r.value)
        && c.tombstone == r.tombstone && Less(fromNode, node))
  }

  lemma GivesWayIff(d: Digest, c: Register, node: string, r: Register, fromNode: string)
    ensures GivesWay(d, c, node, r, fromNode) <==>
      !Beats(d, c, r) && (SameRank(d, c, r) ==> Less(fromNode, node))
  {
    OneOfThree(c.writer, r.writer);
    OneOfThree(d(c.value), d(r.value));
  }

  /** Last writer wins, said of the request itself: a register is in the output exactly when a node of the request holds
      it, it is wanted, and every other node's register under its key gives way to it. */
  lemma LastWriterWins(d: Digest, rd: RecordDigest, request: seq<Snapshot>, tombstones: bool, x: Selected)
    requires ValidRequest(request)
    ensures x in BodyOf(d, rd, Arranged(request), tombstones).registers <==>
      && HeldBy(request, x.fromNode, x.register)
      && x.valueDigest == d(x.register.value) && (x.register.tombstone ==> tombstones)
      && forall node, c :: node != x.fromNode && HeldBy(request, node, c) && c.key == x.register.key ==>
        GivesWay(d, c, node, x.register, x.fromNode)
  {
    RegistersExact(d, rd, request, tombstones, x);
    SelectsIff(d, request, x.register.key, Candidate(x.fromNode, x.register));
  }

  lemma SelectsIff(d: Digest, request: seq<Snapshot>, key: string, w: Candidate)
    requires ValidRequest(request)
    ensures Selects(d, request, key, w) <==>
      && w.register.key == key && HeldBy(request, w.node, w.register)
      && forall node, c :: node != w.node && HeldBy(request, node, c) && c.key == key ==>
        GivesWay(d, c, node, w.register, w.node)
  {
    forall node, c
      ensures HeldBy(request, node, c) && c.key == key <==> IsCandidate(request, key, Candidate(node, c))
      ensures GivesWay(d, c, node, w.register, w.node) <==>
        !Beats(d, c, w.register) && (SameRank(d, c, w.register) ==> Less(w.node, node))
    {
      GivesWayIff(d, c, node, w.register, w.node);
    }
    forall c | IsCandidate(request, key, c) && IsCandidate(request, key, w) && c.node == w.node
      ensures c == w && !Beats(d, c.register, w.register)
    {
      OneOfANode(request, key, c, w);
      BeatsTotal(d, w.register, w.register);
    }
    if Selects(d, request, key, w) {
      forall node, c | node != w.node && HeldBy(request, node, c) && c.key == key
        ensures GivesWay(d, c, node, w.register, w.node)
      {
        assert IsCandidate(request, key, Candidate(node, c));
      }
    }
  }

  lemma OneOfANode(request: seq<Snapshot>, key: string, v: Candidate, w: Candidate)
    requires ValidRequest(request) && IsCandidate(request, key, v) && IsCandidate(request, key, w) && v.node == w.node
    ensures v == w
  {
    var s :| s in request && s.nodeId == v.node && v.register in s.registers;
    var t :| t in request && t.nodeId == w.node && w.register in t.registers;
    SameNodeSameSnapshot(request, s, t);
  }

  ghost predicate HeldBy(request: seq<Snapshot>, node: string, r: Register)
  {
    exists s :: s in request && s.nodeId == node && r in s.registers
  }

  ghost predicate Reports(d: Digest, rd: RecordDigest, snapshots: seq<Snapshot>, key: string, x: Conflict)
  {
    x in ConflictsIn(d, rd, key, CandidatesFor(snapshots, key))
  }

  lemma {:induction false} ReportedExact(d: Digest, rd: RecordDigest, snapshots: seq<Snapshot>, keys: seq<string>,
                                         x: Conflict)
    ensures x in AllConflicts(d, rd, snapshots, keys) <==> x.key in keys && Reports(d, rd, snapshots, x.key, x)
  {
    if keys != [] {
      var rest, last := keys[..|keys| - 1], keys[|keys| - 1];
      ReportedExact(d, rd, snapshots, rest, x);
      ReportedLast(d, rd, snapshots, keys, x);
      assert x.key in keys <==> x.key in rest || x.key == last;
    }
  }

  lemma ReportedLast(d: Digest, rd: RecordDigest, snapshots: seq<Snapshot>, keys: seq<string>, x: Conflict)
    requires keys != []
    ensures x in AllConflicts(d, rd, snapshots, keys) <==>
      || x in AllConflicts(d, rd, snapshots, keys[..|keys| - 1])
      || (x.key == keys[|keys| - 1] && Reports(d, rd, snapshots, x.key, x))
  {
  }

  /** The nodes that hold a register under the key. */
  ghost predicate Holds(s: Snapshot, key: string) { exists r :: r in s.registers && r.key == key }

  ghost function Holders(request: seq<Snapshot>, key: string): set<string>
  {
    set s | s in request && Holds(s, key) :: s.nodeId
  }

  /** The candidates name each holder once. */
  lemma CandidateNodes(request: seq<Snapshot>, key: string)
    requires ValidRequest(request)
    ensures
      var cs := CandidatesFor(Arranged(request), key);
      Sort(Less, Nodes(cs)) == Sorted(Holders(request, key)) && |cs| == |Holders(request, key)|
  {
    var cs := CandidatesFor(Arranged(request), key);
    ArrangedStrictly(request);
    CandidatesAscend(Arranged(request), key);
    forall i, j | 0 <= i < j < |cs| ensures Nodes(cs)[i] != Nodes(cs)[j] {
      assert FromEarlierNode(cs[i], cs[j]);
      LessIrreflexive(cs[i].node);
    }
    assert Elements(Nodes(cs)) == Holders(request, key) by { NodesAreHolders(request, key); }
    SortGivesSorted(Nodes(cs));
    ElementsCount(Nodes(cs));
  }

  lemma NodesAreHolders(request: seq<Snapshot>, key: string)
    requires ValidRequest(request)
    ensures Elements(Nodes(CandidatesFor(Arranged(request), key))) == Holders(request, key)
  {
    var cs := CandidatesFor(Arranged(request), key);
    ArrangedStrictly(request);
    forall n | n in Elements(Nodes(cs)) ensures n in Holders(request, key) {
      var i :| 0 <= i < |cs| && Nodes(cs)[i] == n;
      CandidatesExact(Arranged(request), key, cs[i]);
      var s :| s in Arranged(request) && s.nodeId == n && cs[i].register in s.registers;
      assert s in request && Holds(s, key);
    }
    forall n | n in Holders(request, key) ensures n in Elements(Nodes(cs)) {
      var s :| s in request && Holds(s, key) && s.nodeId == n;
      var r :| r in s.registers && r.key == key;
      assert s in Arranged(request);
      CandidatesExact(Arranged(request), key, Candidate(n, r));
      var i :| 0 <= i < |cs| && cs[i] == Candidate(n, r);
      assert Nodes(cs)[i] == n;
    }
  }

  /** Two registers under the key have different digests. */
  ghost predicate Conflicting(rd: RecordDigest, request: seq<Snapshot>, key: string)
  {
    exists a, b :: IsCandidate(request, key, a) && IsCandidate(request, key, b) && rd(a.register) != rd(b.register)
  }

  /** Exactly the conflicting keys are reported, each with the nodes that hold it, their number, and the selected writer
      and node. */
  lemma ConflictsExact(d: Digest, rd: RecordDigest, request: seq<Snapshot>, tombstones: bool, x: Conflict)
    requires ValidRequest(request)
    ensures x in BodyOf(d, rd, Arranged(request), tombstones).conflicts <==>
      && Conflicting(rd, request, x.key)
      && x.candidateNodes == Sorted(Holders(request, x.key)) && x.candidateCount == |Holders(request, x.key)|
      && exists w :: Selects(d, request, x.key, w) && x.selectedNode == w.node && x.selectedWriter == w.register.writer
  {
    var snapshots := Arranged(request);
    SortedContents(KeysOf(snapshots));
    ReportedExact(d, rd, snapshots, Sorted(KeysOf(snapshots)), x);
    KeyHasCandidates(snapshots, x.key);
    ConflictingIff(rd, request, x.key);
    CandidateNodes(request, x.key);
    SelectedWriter(d, request, x.key, x);
  }

  lemma ConflictingIff(rd: RecordDigest, request: seq<Snapshot>, key: string)
    requires ValidRequest(request)
    ensures
      var cs := CandidatesFor(Arranged(request), key);
      Conflicting(rd, request, key) <==> |Dumps(rd, cs)| > 1
    ensures Conflicting(rd, request, key) ==> CandidatesFor(Arranged(request), key) != []
  {
    var cs := CandidatesFor(Arranged(request), key);
    ArrangedStrictly(request);
    forall c ensures c in cs <==> IsCandidate(request, key, c) {
      CandidatesExact(Arranged(request), key, c);
      SameCandidates(Arranged(request), request, key, c);
    }
    DumpsDiffer(rd, cs);
  }

  lemma SelectedWriter(d: Digest, request: seq<Snapshot>, key: string, x: Conflict)
    requires ValidRequest(request)
    ensures
      var cs := CandidatesFor(Arranged(request), key);
      cs != [] ==>
        ((exists w ::
            Selects(d, request, key, w) && x.selectedNode == w.node && x.selectedWriter == w.register.writer) <==>
         x.selectedNode == Winner(d, cs).node && x.selectedWriter == Winner(d, cs).register.writer)
  {
    var cs := CandidatesFor(Arranged(request), key);
    if cs != [] {
      WinnerExact(d, request, key, Winner(d, cs));
      forall w | Selects(d, request, key, w) ensures w == Winner(d, cs) { WinnerExact(d, request, key, w); }
    }
  }

  lemma DumpsDiffer(rd: RecordDigest, cs: seq<Candidate>)
    ensures |Dumps(rd, cs)| > 1 <==> exists a, b :: a in cs && b in cs && rd(a.register) != rd(b.register)
  {
    var dumps := Dumps(rd, cs);
    if a, b :| a in cs && b in cs && rd(a.register) != rd(b.register) {
      var x, y := rd(a.register), rd(b.register);
      assert x in dumps && y in dumps;
      assert |dumps - {x}| == |dumps| - 1 && y in dumps - {x};
    } else if cs != [] {
      var x := rd(cs[0].register);
      assert x in dumps;
      assert forall y :: y in dumps ==> y == x;
      assert dumps == {x};
    }
  }

  // ---- the clock relations ----

  function RelationBetween(s: Snapshot, t: Snapshot): ClockRelation
  {
    ClockRelation(s.nodeId, t.nodeId, Compare(s.clock, t.clock))
  }

  /** The relation of a snapshot to a later one. */
  ghost predicate Paired(snapshots: seq<Snapshot>, x: ClockRelation)
  {
    exists i, j :: 0 <= i < j < |snapshots| && x == RelationBetween(snapshots[i], snapshots[j])
  }

  ghost predicate PairedWith(left: Snapshot, rights: seq<Snapshot>, x: ClockRelation)
  {
    exists k :: 0 <= k < |rights| && x == RelationBetween(left, rights[k])
  }

  lemma RelatedExact(left: Snapshot, rights: seq<Snapshot>, x: ClockRelation)
    ensures x in RelationsOf(left, rights) <==> PairedWith(left, rights, x)
  {
    if PairedWith(left, rights, x) {
      var k :| 0 <= k < |rights| && x == RelationBetween(left, rights[k]);
      assert RelationsOf(left, rights)[k] == x;
    }
  }

  lemma PairedCons(first: Snapshot, rest: seq<Snapshot>, x: ClockRelation)
    ensures Paired([first] + rest, x) <==> PairedWith(first, rest, x) || Paired(rest, x)
  {
    var all := [first] + rest;
    if PairedWith(first, rest, x) {
      var k :| 0 <= k < |rest| && x == RelationBetween(first, rest[k]);
      assert all[0] == first && all[k + 1] == rest[k];
      PairAt(all, 0, k + 1, x);
    } else if Paired(rest, x) {
      var i, j :| 0 <= i < j < |rest| && x == RelationBetween(rest[i], rest[j]);
      assert all[i + 1] == rest[i] && all[j + 1] == rest[j];
      PairAt(all, i + 1, j + 1, x);
    } else if Paired(all, x) {
      var i, j :| 0 <= i < j < |all| && x == RelationBetween(all[i], all[j]);
      SplitPair(first, rest, i, j, x);
    }
  }

  lemma PairAt(snapshots: seq<Snapshot>, i: nat, j: nat, x: ClockRelation)
    requires i < j < |snapshots| && x == RelationBetween(snapshots[i], snapshots[j])
    ensures Paired(snapshots, x)
  {
  }

  lemma SplitPair(first: Snapshot, rest: seq<Snapshot>, i: nat, j: nat, x: ClockRelation)
    requires i < j < 1 + |rest| && x == RelationBetween(([first] + rest)[i], ([first] + rest)[j])
    ensures PairedWith(first, rest, x) || Paired(rest, x)
  {
    assert ([first] + rest)[j] == rest[j - 1];
    if i > 0 {
      PairAt(rest, i - 1, j - 1, x);
    }
  }

  lemma {:induction false} RelationsListed(snapshots: seq<Snapshot>, x: ClockRelation)
    ensures x in Relations(snapshots) <==> Paired(snapshots, x)
  {
    if snapshots != [] {
      var first, rest := snapshots[0], snapshots[1..];
      RelationsListed(rest, x);
      RelatedExact(first, rest, x);
      assert snapshots == [first] + rest;
      PairedCons(first, rest, x);
    }
  }

  lemma {:induction false} RelationsCount(snapshots: seq<Snapshot>)
    ensures 2 * |Relations(snapshots)| == |snapshots| * (|snapshots| - 1)
  {
    if snapshots != [] {
      RelationsCount(snapshots[1..]);
      Pairs(|snapshots| - 1);
    }
  }

  lemma Pairs(n: int)
    ensures 2 * n + n * (n - 1) == (n + 1) * n
  {
  }

  /** Every two snapshots are related once, with the lesser node on the left, and by the order of their clocks. */
  lemma RelationsExact(d: Digest, rd: RecordDigest, request: seq<Snapshot>, tombstones: bool, x: ClockRelation)
    requires ValidRequest(request)
    ensures
      var relations := BodyOf(d, rd, Arranged(request), tombstones).clockRelations;
      && 2 * |relations| == |request| * (|request| - 1)
      && (x in relations <==>
          exists s, t :: s in request && t in request && Less(s.nodeId, t.nodeId) && x == RelationBetween(s, t))
  {
    RelationsListed(Arranged(request), x);
    RelationsCount(Arranged(request));
    PairedInRequest(request, x);
  }

  lemma PairedInRequest(request: seq<Snapshot>, x: ClockRelation)
    requires ValidRequest(request)
    ensures Paired(Arranged(request), x) <==>
      exists s, t :: s in request && t in request && Less(s.nodeId, t.nodeId) && x == RelationBetween(s, t)
  {
    var r := Arranged(request);
    ArrangedStrictly(request);
    if Paired(r, x) {
      var i, j :| 0 <= i < j < |r| && x == RelationBetween(r[i], r[j]);
      assert ByNode(r[i], r[j]) && r[i] in request && r[j] in request;
    }
    if s, t :| s in request && t in request && Less(s.nodeId, t.nodeId) && x == RelationBetween(s, t) {
      assert s in r && t in r;
      var i :| 0 <= i < |r| && r[i] == s;
      var j :| 0 <= j < |r| && r[j] == t;
      PlacedByNode(r, i, j);
    }
  }

  lemma PlacedByNode(r: seq<Snapshot>, i: nat, j: nat)
    requires StrictlyAscending(ByNode, r) && i < |r| && j < |r| && Less(r[i].nodeId, r[j].nodeId)
    ensures i < j
  {
    LessIrreflexive(r[i].nodeId);
    if j < i {
      assert ByNode(r[j], r[i]);
      LessTransitive(r[i].nodeId, r[j].nodeId, r[i].nodeId);
    }
  }

  // ---- merging in rounds ----

  function Contents(selected: seq<Selected>): seq<Register>
  {
    seq(|selected|, i requires 0 <= i < |selected| => selected[i].register)
  }

  /** A merged group as a snapshot of its own: the merged clock and, tombstones included, the selected registers. */
  ghost function Summary(d: Digest, rd: RecordDigest, name: string, group: seq<Snapshot>): Snapshot
  {
    var body := BodyOf(d, rd, Arranged(group), true);
    Snapshot(name, body.mergedClock, Contents(body.registers))
  }

  /** Two different values with one digest, among the registers of these snapshots. */
  ghost predicate ValueCollision(d: Digest, snapshots: seq<Snapshot>)
  {
    exists s, t, x, y :: s in snapshots && t in snapshots && x in s.registers && y in t.registers
      && x.value != y.value && d(x.value) == d(y.value)
  }

  /** Registers that neither beats the other, under one key, are the same unless their values collide. */
  lemma SameUnlessCollision(d: Digest, all: seq<Snapshot>, key: string, v: Candidate, w: Candidate)
    requires IsCandidate(all, key, v) && IsCandidate(all, key, w)
    requires !Beats(d, v.register, w.register) && !Beats(d, w.register, v.register)
    ensures v.register == w.register || ValueCollision(d, all)
  {
    BeatsTotal(d, v.register, w.register);
    var s :| s in all && s.nodeId == v.node && v.register in s.registers;
    var t :| t in all && t.nodeId == w.node && w.register in t.registers;
  }

  /** With tombstones included there is one selected register for each key, in the order of the keys. */
  lemma {:induction false} SelectedAt(d: Digest, snapshots: seq<Snapshot>, keys: seq<string>)
    requires forall key :: key in keys ==> CandidatesFor(snapshots, key) != []
    ensures |AllSelected(d, true, snapshots, keys)| == |keys|
    ensures forall i :: 0 <= i < |keys| ==>
      keys[i] in keys
        && AllSelected(d, true, snapshots, keys)[i].register == Winner(d, CandidatesFor(snapshots, keys[i])).register
  {
    if keys != [] {
      var rest, last := keys[..|keys| - 1], keys[|keys| - 1];
      assert last in keys;
      SelectedAt(d, snapshots, rest);
      var before, added := AllSelected(d, true, snapshots, rest), SelectedIn(d, true, CandidatesFor(snapshots, last));
      assert |added| == 1 && added[0].register == Winner(d, CandidatesFor(snapshots, last)).register;
      assert AllSelected(d, true, snapshots, keys) == before + added;
      forall i | 0 <= i < |rest|
        ensures (before + added)[i].register == Winner(d, CandidatesFor(snapshots, keys[i])).register
      {
        assert keys[i] == rest[i] && (before + added)[i] == before[i];
      }
    }
  }

  /** The output's registers, key by key in ascending order. */
  lemma ContentsAt(d: Digest, rd: RecordDigest, request: seq<Snapshot>)
    requires ValidRequest(request)
    ensures
      var keys, r := Sorted(KeysOf(request)), Contents(BodyOf(d, rd, Arranged(request), true).registers);
      && |r| == |keys|
      && forall i :: 0 <= i < |keys|
           ==> r[i].key == keys[i] && exists node :: Selects(d, request, keys[i], Candidate(node, r[i]))
  {
    var snapshots := Arranged(request);
    ArrangedStrictly(request);
    assert KeysOf(snapshots) == KeysOf(request);
    var keys, r := Sorted(KeysOf(request)), Contents(BodyOf(d, rd, snapshots, true).registers);
    SortedContents(KeysOf(request));
    forall key | key in keys ensures CandidatesFor(snapshots, key) != [] { KeyHasCandidates(snapshots, key); }
    SelectedAt(d, snapshots, keys);
    forall i | 0 <= i < |keys|
      ensures r[i].key == keys[i] && exists node :: Selects(d, request, keys[i], Candidate(node, r[i]))
    {
      assert keys[i] in keys;
      var w := Winner(d, CandidatesFor(snapshots, keys[i]));
      WinnerExact(d, request, keys[i], w);
      assert w == Candidate(w.node, r[i]);
    }
  }

  lemma SummaryHolds(d: Digest, rd: RecordDigest, name: string, group: seq<Snapshot>, r: Register)
    requires ValidRequest(group)
    ensures r in Summary(d, rd, name, group).registers <==> exists node :: Selects(d, group, r.key, Candidate(node, r))
  {
    var selected := BodyOf(d, rd, Arranged(group), true).registers;
    if r in Contents(selected) {
      var i :| 0 <= i < |selected| && selected[i].register == r;
      RegistersExact(d, rd, group, true, selected[i]);
    }
    if node :| Selects(d, group, r.key, Candidate(node, r)) {
      var x := Selected(r, node, d(r.value));
      RegistersExact(d, rd, group, true, x);
      var i :| 0 <= i < |selected| && selected[i] == x;
      assert Contents(selected)[i] == r;
    }
  }

  /** The groups, under fresh names, hold between them exactly the snapshots. */
  ghost predicate Rounds(groups: seq<seq<Snapshot>>, names: seq<string>, all: seq<Snapshot>)
  {
    && |names| == |groups| > 0 && Distinct(names) && ValidRequest(all)
    && (forall g :: 0 <= g < |groups| ==> ValidRequest(groups[g]))
    && (forall s :: s in all <==> exists g :: 0 <= g < |groups| && s in groups[g])
  }

  ghost function Summaries(d: Digest, rd: RecordDigest, groups: seq<seq<Snapshot>>,
                           names: seq<string>): (r: seq<Snapshot>)
    requires |names| == |groups|
    ensures |r| == |groups| && forall g :: 0 <= g < |groups| ==> r[g] == Summary(d, rd, names[g], groups[g])
  {
    seq(|groups|, g requires 0 <= g < |groups| => Summary(d, rd, names[g], groups[g]))
  }

  lemma SummaryUnique(d: Digest, rd: RecordDigest, name: string, group: seq<Snapshot>)
    requires ValidRequest(group)
    ensures UniqueKeys(Summary(d, rd, name, group))
  {
    ContentsAt(d, rd, group);
    SortedContents(KeysOf(group));
    var keys, r := Sorted(KeysOf(group)), Summary(d, rd, name, group).registers;
    forall i, j | 0 <= i < j < |r| ensures r[i].key != r[j].key {
      assert Less(keys[i], keys[j]);
      LessIrreflexive(keys[i]);
    }
  }

  lemma SummariesValid(d: Digest, rd: RecordDigest, groups: seq<seq<Snapshot>>, names: seq<string>, all: seq<Snapshot>)
    requires Rounds(groups, names, all)
    ensures ValidRequest(Summaries(d, rd, groups, names))
  {
    var r := Summaries(d, rd, groups, names);
    forall s | s in r ensures UniqueKeys(s) {
      var g :| 0 <= g < |r| && r[g] == s;
      SummaryUnique(d, rd, names[g], groups[g]);
    }
    assert r[0] in r;
  }

  lemma GroupSelects(d: Digest, group: seq<Snapshot>, key: string, c: Candidate) returns (z: Candidate)
    requires ValidRequest(group) && IsCandidate(group, key, c)
    ensures Selects(d, group, key, z)
  {
    ArrangedStrictly(group);
    SameCandidates(Arranged(group), group, key, c);
    CandidatesExact(Arranged(group), key, c);
    z := Winner(d, CandidatesFor(Arranged(group), key));
    WinnerExact(d, group, key, z);
  }

  /** What the first round kept of a candidate's group, as a candidate of the second round. */
  lemma KeptInRound(d: Digest, rd: RecordDigest, groups: seq<seq<Snapshot>>, names: seq<string>, all: seq<Snapshot>,
                    key: string, v: Candidate) returns (z: Candidate)
    requires Rounds(groups, names, all) && IsCandidate(all, key, v)
    ensures IsCandidate(Summaries(d, rd, groups, names), key, z) && !Beats(d, v.register, z.register)
  {
    var s :| s in all && s.nodeId == v.node && v.register in s.registers;
    var h :| 0 <= h < |groups| && s in groups[h];
    assert IsCandidate(groups[h], key, v);
    var best := GroupSelects(d, groups[h], key, v);
    SummaryHolds(d, rd, names[h], groups[h], best.register);
    z := Candidate(names[h], best.register);
    assert Summaries(d, rd, groups, names)[h] in Summaries(d, rd, groups, names);
  }

  lemma InSummary(d: Digest, rd: RecordDigest, groups: seq<seq<Snapshot>>, names: seq<string>, key: string,
                  w: Candidate)
    returns (g: nat)
    requires |names| == |groups| && IsCandidate(Summaries(d, rd, groups, names), key, w)
    ensures g < |groups| && w.register.key == key && w.register in Summary(d, rd, names[g], groups[g]).registers
  {
    g := HolderOf(Summaries(d, rd, groups, names), key, w);
  }

  lemma HolderOf(snapshots: seq<Snapshot>, key: string, c: Candidate) returns (i: nat)
    requires IsCandidate(snapshots, key, c)
    ensures i < |snapshots| && c.register.key == key && c.register in snapshots[i].registers
  {
    var s :| s in snapshots && s.nodeId == c.node && c.register in s.registers;
    i :| 0 <= i < |snapshots| && snapshots[i] == s;
  }

  /** A candidate of the second round is a register that some snapshot held. */
  lemma HeldBefore(d: Digest, rd: RecordDigest, groups: seq<seq<Snapshot>>, names: seq<string>, all: seq<Snapshot>,
                   key: string, w: Candidate) returns (node: string)
    requires Rounds(groups, names, all) && IsCandidate(Summaries(d, rd, groups, names), key, w)
    ensures IsCandidate(all, key, Candidate(node, w.register))
  {
    var g := InSummary(d, rd, groups, names, key, w);
    SummaryHolds(d, rd, names[g], groups[g], w.register);
    node :| Selects(d, groups[g], w.register.key, Candidate(node, w.register));
    CandidateOfAll(groups[g], all, key, Candidate(node, w.register));
  }

  lemma CandidateOfAll(group: seq<Snapshot>, all: seq<Snapshot>, key: string, c: Candidate)
    requires IsCandidate(group, key, c) && forall s :: s in group ==> s in all
    ensures IsCandidate(all, key, c)
  {
  }

  lemma RoundsAgreeOn(d: Digest, rd: RecordDigest, groups: seq<seq<Snapshot>>, names: seq<string>, all: seq<Snapshot>,
                      key: string, v: Candidate, w: Candidate)
    requires Rounds(groups, names, all)
    requires Selects(d, all, key, v) && Selects(d, Summaries(d, rd, groups, names), key, w)
    ensures v.register == w.register || ValueCollision(d, all)
  {
    var node := HeldBefore(d, rd, groups, names, all, key, w);
    var z := KeptInRound(d, rd, groups, names, all, key, v);
    BeatsTransitive(d, w.register, z.register, v.register);
    SameUnlessCollision(d, all, key, v, Candidate(node, w.register));
  }

  lemma RoundsKeys(d: Digest, rd: RecordDigest, groups: seq<seq<Snapshot>>, names: seq<string>, all: seq<Snapshot>)
    requires Rounds(groups, names, all)
    ensures KeysOf(Summaries(d, rd, groups, names)) == KeysOf(all)
  {
    var r := Summaries(d, rd, groups, names);
    forall key | key in KeysOf(r) ensures key in KeysOf(all) {
      var s, x :| s in r && x in s.registers && x.key == key;
      var node := HeldBefore(d, rd, groups, names, all, key, Candidate(s.nodeId, x));
    }
    forall key | key in KeysOf(all) ensures key in KeysOf(r) {
      var s, x :| s in all && x in s.registers && x.key == key;
      var z := KeptInRound(d, rd, groups, names, all, key, Candidate(s.nodeId, x));
    }
  }

  /** Merging in two rounds, tombstones included, selects the same registers as merging at once; otherwise two values
      in the input share a digest. */
  lemma TwoRounds(d: Digest, rd: RecordDigest, groups: seq<seq<Snapshot>>, names: seq<string>, all: seq<Snapshot>)
    requires Rounds(groups, names, all)
    ensures ValidRequest(Summaries(d, rd, groups, names))
    ensures
      var once, twice :=
        BodyOf(d, rd, Arranged(all), true), BodyOf(d, rd, Arranged(Summaries(d, rd, groups, names)), true);
      Contents(once.registers) == Contents(twice.registers) || ValueCollision(d, all)
  {
    var r := Summaries(d, rd, groups, names);
    SummariesValid(d, rd, groups, names, all);
    RoundsKeys(d, rd, groups, names, all);
    ContentsAt(d, rd, all);
    ContentsAt(d, rd, r);
    var keys := Sorted(KeysOf(all));
    var x := Contents(BodyOf(d, rd, Arranged(all), true).registers);
    var y := Contents(BodyOf(d, rd, Arranged(r), true).registers);
    forall i | 0 <= i < |keys| ensures x[i] == y[i] || ValueCollision(d, all) {
      var m :| Selects(d, all, keys[i], Candidate(m, x[i]));
      var n :| Selects(d, r, keys[i], Candidate(n, y[i]));
      RoundsAgreeOn(d, rd, groups, names, all, keys[i], Candidate(m, x[i]), Candidate(n, y[i]));
    }
  }

  /** The clock of the two rounds is the clock of the one, whatever the digests. */
  lemma TwoRoundsClock(d: Digest, rd: RecordDigest, groups: seq<seq<Snapshot>>, names: seq<string>, all: seq<Snapshot>)
    requires Rounds(groups, names, all)
    ensures
      BodyOf(d, rd, Arranged(Summaries(d, rd, groups, names)), true).mergedClock
        == BodyOf(d, rd, Arranged(all), true).mergedClock
  {
    var r := Summaries(d, rd, groups, names);
    SummariesValid(d, rd, groups, names, all);
    var clocks := seq(|groups|, g requires 0 <= g < |groups| => Clocks(Arranged(groups[g])));
    forall c ensures c in Clocks(Arranged(all)) <==> exists g :: 0 <= g < |clocks| && c in clocks[g] {
      ClockInGroup(groups, names, all, clocks, c);
    }
    MergedInGroups(clocks, Clocks(r), Clocks(Arranged(all)));
    SameMerged(r);
  }

  lemma ClockInGroup(groups: seq<seq<Snapshot>>, names: seq<string>, all: seq<Snapshot>, clocks: seq<seq<Clock>>,
                     c: Clock)
    requires Rounds(groups, names, all)
    requires |clocks| == |groups| && forall g :: 0 <= g < |groups| ==> clocks[g] == Clocks(Arranged(groups[g]))
    ensures c in Clocks(Arranged(all)) <==> exists g :: 0 <= g < |clocks| && c in clocks[g]
  {
    ClockOf(all, c);
    forall g | 0 <= g < |groups| ensures c in clocks[g] <==> exists s :: s in groups[g] && s.clock == c {
      ClockOf(groups[g], c);
    }
    if s :| s in all && s.clock == c {
      var g :| 0 <= g < |groups| && s in groups[g];
      assert c in clocks[g];
    }
    if g :| 0 <= g < |clocks| && c in clocks[g] {
      var s :| s in groups[g] && s.clock == c;
      assert s in all;
    }
  }

  lemma ClockOf(request: seq<Snapshot>, c: Clock)
    requires ValidRequest(request)
    ensures c in Clocks(Arranged(request)) <==> exists s :: s in request && s.clock == c
  {
    ArrangedStrictly(request);
    var r := Arranged(request);
    if c in Clocks(r) {
      var i :| 0 <= i < |r| && Clocks(r)[i] == c;
      assert r[i] in r;
    }
    if s :| s in request && s.clock == c {
      assert s in r;
      var i :| 0 <= i < |r| && r[i] == s;
      assert Clocks(r)[i] == c;
    }
  }

  /** Sorting the snapshots does not change their merged clock. */
  lemma SameMerged(request: seq<Snapshot>)
    requires ValidRequest(request)
    ensures Merged(Clocks(Arranged(request))) == Merged(Clocks(request))
  {
    var a, b := Clocks(Arranged(request)), Clocks(request);
    forall c ensures c in a <==> c in b {
      ClockOf(request, c);
      if c in b {
        var i :| 0 <= i < |b| && b[i] == c;
        assert request[i] in request && request[i].clock == c;
      }
      if s :| s in request && s.clock == c {
        var i :| 0 <= i < |request| && request[i] == s;
        assert b[i] == c;
      }
    }
    assert Merged([Merged(a)]) == Merged(a) by { assert [Merged(a)][..0] == []; JoinEmpty(Merged(a)); }
    MergedInGroups([a], [Merged(a)], b);
  }

  lemma JoinEmpty(c: Clock)
    ensures Join(map[], c) == c
  {
  }

  // ---- the order and the clock of the output ----

  function RegisterKeys(r: seq<Selected>): (keys: seq<string>)
    ensures |keys| == |r| && forall i :: 0 <= i < |r| ==> keys[i] == r[i].register.key
  {
    seq(|r|, i requires 0 <= i < |r| => r[i].register.key)
  }

  function ConflictKeys(r: seq<Conflict>): (keys: seq<string>)
    ensures |keys| == |r| && forall i :: 0 <= i < |r| ==> keys[i] == r[i].key
  {
    seq(|r|, i requires 0 <= i < |r| => r[i].key)
  }

  lemma AscendsBy(before: seq<string>, more: seq<string>, last: string)
    requires StrictlyAscending(Less, before) && (more == [] || more == [last])
    requires forall k :: k in before ==> Less(k, last)
    ensures StrictlyAscending(Less, before + more)
  {
    var all := before + more;
    forall i, j | 0 <= i < j < |all| ensures Less(all[i], all[j]) { assert before[i] in before; }
  }

  lemma {:induction false} SelectedAscend(d: Digest, tombstones: bool, snapshots: seq<Snapshot>, keys: seq<string>)
    requires StrictlyAscending(Less, keys)
    ensures StrictlyAscending(Less, RegisterKeys(AllSelected(d, tombstones, snapshots, keys)))
    ensures forall k :: k in RegisterKeys(AllSelected(d, tombstones, snapshots, keys)) ==> k in keys
  {
    if keys != [] {
      var rest, last := keys[..|keys| - 1], keys[|keys| - 1];
      SelectedAscend(d, tombstones, snapshots, rest);
      BeforeLast(keys);
      var cs := CandidatesFor(snapshots, last);
      if cs != [] { CandidatesExact(snapshots, last, Winner(d, cs)); }
      var before, more := AllSelected(d, tombstones, snapshots, rest), SelectedIn(d, tombstones, cs);
      assert RegisterKeys(before + more) == RegisterKeys(before) + RegisterKeys(more);
      AscendsBy(RegisterKeys(before), RegisterKeys(more), last);
    }
  }

  lemma {:induction false} ConflictsAscend(d: Digest, rd: RecordDigest, snapshots: seq<Snapshot>, keys: seq<string>)
    requires StrictlyAscending(Less, keys)
    ensures StrictlyAscending(Less, ConflictKeys(AllConflicts(d, rd, snapshots, keys)))
    ensures forall k :: k in ConflictKeys(AllConflicts(d, rd, snapshots, keys)) ==> k in keys
  {
    if keys != [] {
      var rest, last := keys[..|keys| - 1], keys[|keys| - 1];
      ConflictsAscend(d, rd, snapshots, rest);
      BeforeLast(keys);
      var before := AllConflicts(d, rd, snapshots, rest);
      var more := ConflictsIn(d, rd, last, CandidatesFor(snapshots, last));
      assert ConflictKeys(before + more) == ConflictKeys(before) + ConflictKeys(more);
      AscendsBy(ConflictKeys(before), ConflictKeys(more), last);
    }
  }

  lemma BeforeLast(keys: seq<string>)
    requires StrictlyAscending(Less, keys) && keys != []
    ensures
      var rest, last := keys[..|keys| - 1], keys[|keys| - 1];
      StrictlyAscending(Less, rest) && (forall k :: k in rest ==> Less(k, last) && k in keys) && last in keys
  {
  }

  lemma SortedNodes(request: seq<Snapshot>)
    requires ValidRequest(request)
    ensures NodeIds(Arranged(request)) == Sorted(set s | s in request :: s.nodeId)
  {
    var r, nodes := Arranged(request), set s | s in request :: s.nodeId;
    var ids := NodeIds(r);
    ArrangedStrictly(request);
    SortedContents(nodes);
    forall i, j | 0 <= i < j < |ids| ensures Less(ids[i], ids[j]) { assert ByNode(r[i], r[j]); }
    forall n ensures n in ids <==> n in nodes {
      if n in nodes {
        var s :| s in request && s.nodeId == n;
        var i :| 0 <= i < |r| && r[i] == s;
        assert ids[i] == n;
      }
      if i :| 0 <= i < |ids| && ids[i] == n { assert r[i] in r; }
    }
    StringsWeaklyOrdered();
    AscendingUnique(Less, ids, Sorted(nodes));
  }

  /** The output lists nodes, registers and conflicts in ascending order, and its clock is the least that no snapshot's
      clock exceeds. */
  lemma OutputArranged(d: Digest, rd: RecordDigest, request: seq<Snapshot>, tombstones: bool, bound: Clock)
    requires ValidRequest(request)
    ensures
      var body := BodyOf(d, rd, Arranged(request), tombstones);
      && body.nodes == Sorted(set s | s in request :: s.nodeId)
      && StrictlyAscending(Less, RegisterKeys(body.registers)) && StrictlyAscending(Less, ConflictKeys(body.conflicts))
      && (Below(body.mergedClock, bound) <==> forall s :: s in request ==> Below(s.clock, bound))
  {
    var snapshots := Arranged(request);
    var keys := Sorted(KeysOf(snapshots));
    SortedContents(KeysOf(snapshots));
    SelectedAscend(d, tombstones, snapshots, keys);
    ConflictsAscend(d, rd, snapshots, keys);
    SortedNodes(request);
    ClockBound(request, bound);
  }

  lemma ClockBound(request: seq<Snapshot>, bound: Clock)
    requires ValidRequest(request)
    ensures Below(Merged(Clocks(Arranged(request))), bound) <==> forall s :: s in request ==> Below(s.clock, bound)
  {
    var r := Arranged(request);
    ArrangedStrictly(request);
    LeastUpperBound(Clocks(r), bound);
    if forall i :: 0 <= i < |Clocks(r)| ==> Below(Clocks(r)[i], bound) {
      forall s | s in request ensures Below(s.clock, bound) {
        var i :| 0 <= i < |r| && r[i] == s;
        assert Clocks(r)[i] == s.clock;
      }
    }
    if forall s :: s in request ==> Below(s.clock, bound) {
      forall i | 0 <= i < |Clocks(r)| ensures Below(Clocks(r)[i], bound) { assert r[i] in r; }
    }
  }
}
