// The last-writer-wins merge of declared snapshots, and their vector clocks (mesh_command/app.py).
module VectorClocks {
  import opened Prelude

  type Clock = map<string, nat>

  /** A clock says nothing of a node it has not heard from: that reads as 0. */
  function Get(c: Clock, name: string): nat { if name in c then c[name] else 0 }

  datatype Relation = Before | After | Equal | Concurrent

  function Compare(left: Clock, right: Clock): Relation
  {
    var le := forall name :: name in left.Keys + right.Keys ==> Get(left, name) <= Get(right, name);
    var ge := forall name :: name in left.Keys + right.Keys ==> Get(left, name) >= Get(right, name);
    if le && ge then Equal else if le then Before else if ge then After else Concurrent
  }

  ghost predicate Below(a: Clock, b: Clock) { forall name :: Get(a, name) <= Get(b, name) }

  /** What one clock says of a name the other says too, or more; it may leave out what the other has at 0. */
  lemma BelowExact(a: Clock, b: Clock)
    ensures Below(a, b) <==> forall name :: name in a ==> a[name] == 0 || (name in b && a[name] <= b[name])
  {
    if Below(a, b) {
      forall name | name in a ensures a[name] == 0 || (name in b && a[name] <= b[name]) {
        assert Get(a, name) <= Get(b, name);
      }
    }
  }

  /** The comparison decides the order of clocks as functions from all names. */
  lemma CompareExact(a: Clock, b: Clock)
    ensures Compare(a, b) == Equal <==> Below(a, b) && Below(b, a)
    ensures Compare(a, b) == Before <==> Below(a, b) && !Below(b, a)
    ensures Compare(a, b) == After <==> Below(b, a) && !Below(a, b)
    ensures Compare(a, b) == Concurrent <==> !Below(a, b) && !Below(b, a)
  {
    if forall name :: name in a.Keys + b.Keys ==> Get(a, name) <= Get(b, name) {
      forall name ensures Get(a, name) <= Get(b, name) { assert name in a.Keys + b.Keys || Get(a, name) == 0; }
    }
    if forall name :: name in a.Keys + b.Keys ==> Get(a, name) >= Get(b, name) {
      forall name ensures Get(b, name) <= Get(a, name) { assert name in a.Keys + b.Keys || Get(b, name) == 0; }
    }
  }

  function Greater(a: nat, b: nat): nat { if a >= b then a else b }

  function Join(a: Clock, b: Clock): Clock
  {
    map name | name in a.Keys + b.Keys :: Greater(Get(a, name), Get(b, name))
  }

  /** merge_clock over clocks in order. */
  function Merged(clocks: seq<Clock>): Clock
  {
    if clocks == [] then map[] else Join(Merged(clocks[..|clocks| - 1]), clocks[|clocks| - 1])
  }

  method MergeClocks(clocks: seq<Clock>) returns (merged: Clock)
    ensures merged == Merged(clocks)
  {
    merged := map[];
    for i := 0 to |clocks|
      invariant merged == Merged(clocks[..i])
    {
      assert clocks[..i + 1][..i] == clocks[..i];
      merged := JoinInto(merged, clocks[i]);
    }
    assert clocks[..|clocks|] == clocks;
  }

  /** The entries of one clock, folded in one by one. */
  method JoinInto(before: Clock, clock: Clock) returns (merged: Clock)
    ensures merged == Join(before, clock)
  {
    merged := before;
    var todo := clock.Keys;
    while todo != {}
      invariant todo <= clock.Keys
      invariant merged.Keys == before.Keys + (clock.Keys - todo)
      invariant forall name :: name in merged ==>
        merged[name] == if name in todo then Get(before, name) else Greater(Get(before, name), Get(clock, name))
      decreases todo
    {
      var node :| node in todo;
      merged := merged[node := Greater(Get(merged, node), clock[node])];
      todo := todo - {node};
    }
  }

  lemma {:induction false} MergedCovers(clocks: seq<Clock>, i: nat)
    requires i < |clocks|
    ensures Below(clocks[i], Merged(clocks))
  {
    var rest, last := clocks[..|clocks| - 1], clocks[|clocks| - 1];
    if i < |rest| { MergedCovers(rest, i); }
    forall name ensures Get(clocks[i], name) <= Get(Merged(clocks), name) {
      assert i < |rest| ==> Get(rest[i], name) <= Get(Merged(rest), name);
    }
  }

  lemma {:induction false} MergedLeast(clocks: seq<Clock>, bound: Clock)
    requires forall i :: 0 <= i < |clocks| ==> Below(clocks[i], bound)
    ensures Below(Merged(clocks), bound)
  {
    if clocks != [] {
      MergedLeast(clocks[..|clocks| - 1], bound);
      assert Below(clocks[|clocks| - 1], bound);
    }
  }

  /** The merged clock is below a bound exactly when every clock is: it is their least upper bound. */
  lemma LeastUpperBound(clocks: seq<Clock>, bound: Clock)
    ensures Below(Merged(clocks), bound) <==> forall i :: 0 <= i < |clocks| ==> Below(clocks[i], bound)
  {
    if Below(Merged(clocks), bound) {
      forall i | 0 <= i < |clocks| ensures Below(clocks[i], bound) {
        MergedCovers(clocks, i);
        forall name ensures Get(clocks[i], name) <= Get(bound, name) {
          assert Get(clocks[i], name) <= Get(Merged(clocks), name) <= Get(bound, name);
        }
      }
    } else if forall i :: 0 <= i < |clocks| ==> Below(clocks[i], bound) {
      MergedLeast(clocks, bound);
    }
  }

  /** It names exactly the nodes that some clock names. */
  lemma {:induction false} MergedNames(clocks: seq<Clock>, name: string)
    ensures name in Merged(clocks) <==> exists i :: 0 <= i < |clocks| && name in clocks[i]
  {
    if clocks != [] {
      var rest := clocks[..|clocks| - 1];
      MergedNames(rest, name);
      if i :| 0 <= i < |clocks| && name in clocks[i] { assert i < |rest| ==> rest[i] == clocks[i]; }
    }
  }

  lemma BelowBothWays(a: Clock, b: Clock)
    requires Below(a, b) && Below(b, a) && a.Keys == b.Keys
    ensures a == b
  {
    forall name | name in a ensures a[name] == b[name] { assert Get(a, name) == Get(b, name); }
  }

  /** Clocks merged in groups and then together are as if merged at once. */
  lemma MergedInGroups(groups: seq<seq<Clock>>, firsts: seq<Clock>, all: seq<Clock>)
    requires |firsts| == |groups| && forall g :: 0 <= g < |groups| ==> firsts[g] == Merged(groups[g])
    requires forall c :: c in all <==> exists g :: 0 <= g < |groups| && c in groups[g]
    ensures Merged(firsts) == Merged(all)
  {
    var a, b := Merged(firsts), Merged(all);
    forall g | 0 <= g < |groups| ensures Below(firsts[g], b) {
      forall i | 0 <= i < |groups[g]| ensures Below(groups[g][i], b) {
        assert groups[g][i] in groups[g] && groups[g][i] in all;
        var j :| 0 <= j < |all| && all[j] == groups[g][i];
        MergedCovers(all, j);
      }
      LeastUpperBound(groups[g], b);
    }
    LeastUpperBound(firsts, b);
    forall j | 0 <= j < |all| ensures Below(all[j], a) {
      assert all[j] in all;
      var g :| 0 <= g < |groups| && all[j] in groups[g];
      var i :| 0 <= i < |groups[g]| && groups[g][i] == all[j];
      MergedCovers(firsts, g);
      LeastUpperBound(groups[g], a);
    }
    LeastUpperBound(all, a);
    forall name ensures name in a <==> name in b { GroupNames(groups, firsts, all, name); }
    BelowBothWays(a, b);
  }

  lemma GroupNames(groups: seq<seq<Clock>>, firsts: seq<Clock>, all: seq<Clock>, name: string)
    requires |firsts| == |groups| && forall g :: 0 <= g < |groups| ==> firsts[g] == Merged(groups[g])
    requires forall c :: c in all <==> exists g :: 0 <= g < |groups| && c in groups[g]
    ensures name in Merged(firsts) <==> name in Merged(all)
  {
    MergedNames(firsts, name);
    MergedNames(all, name);
    if name in Merged(firsts) {
      var g :| 0 <= g < |firsts| && name in firsts[g];
      MergedNames(groups[g], name);
      var i :| 0 <= i < |groups[g]| && name in groups[g][i];
      assert groups[g][i] in groups[g] && groups[g][i] in all;
    }
    if name in Merged(all) {
      var j :| 0 <= j < |all| && name in all[j];
      assert all[j] in all;
      var g :| 0 <= g < |groups| && all[j] in groups[g];
      MergedNames(groups[g], name);
    }
  }
}

module SnapshotMerge {
  import opened Prelude
  import opened Orders
  import opened VectorClocks

  /** A register; values are canonical JSON texts. */
  datatype Register = Register(key: string, value: string, logicalTime: nat, writer: string, tombstone: bool)

  datatype Snapshot = Snapshot(nodeId: string, clock: Clock, registers: seq<Register>)

  /** SHA-256 of a value's canonical text. Nothing is assumed about it. */
  type Digest = string -> string

  /** SHA-256 of a whole register's canonical form. */
  type RecordDigest = Register -> string

  // ---- winner_key ----

  /** winner_key(a) > winner_key(b) */
  predicate Beats(d: Digest, a: Register, b: Register)
  {
    if a.logicalTime != b.logicalTime then a.logicalTime > b.logicalTime
    else if a.writer != b.writer then Less(b.writer, a.writer)
    else if d(a.value) != d(b.value) then Less(d(b.value), d(a.value))
    else a.tombstone && !b.tombstone
  }

  predicate SameRank(d: Digest, a: Register, b: Register)
  {
    a.logicalTime == b.logicalTime && a.writer == b.writer && d(a.value) == d(b.value) && a.tombstone == b.tombstone
  }

  lemma BeatsTotal(d: Digest, a: Register, b: Register)
    ensures Beats(d, a, b) || Beats(d, b, a) || SameRank(d, a, b)
    ensures SameRank(d, a, b) ==> !Beats(d, a, b)
  {
    LessTotal(a.writer, b.writer);
    LessTotal(d(a.value), d(b.value));
  }

  lemma BeatsTransitive(d: Digest, a: Register, b: Register, c: Register)
    requires !Beats(d, b, a) && !Beats(d, c, b)
    ensures !Beats(d, c, a)
  {
    LessStrict(c.writer, b.writer, a.writer);
    LessStrict(d(c.value), d(b.value), d(a.value));
  }

  lemma LessStrict(x: string, y: string, z: string)
    ensures !Less(y, x) && !Less(z, y) ==> !Less(z, x)
    ensures !Less(x, y) && !Less(y, x) ==> x == y
    ensures !Less(y, z) && !Less(z, y) ==> y == z
    ensures Less(z, x) ==> !Less(x, z)
    ensures x == z && !Less(y, x) && !Less(z, y) ==> x == y
  {
    StringsWeaklyOrdered();
    LessTotal(x, y);
    LessTotal(y, z);
    LessTotal(x, z);
  }

  datatype Candidate = Candidate(node: string, register: Register)

  /** max(candidates, key=winner_key): the first of the best. */
  function FirstBest(d: Digest, cs: seq<Candidate>): (i: nat)
    requires cs != []
    ensures i < |cs|
  {
    if |cs| == 1 then 0
    else
      var i := FirstBest(d, cs[..|cs| - 1]);
      if Beats(d, cs[|cs| - 1].register, cs[i].register) then |cs| - 1 else i
  }

  lemma {:induction false} FirstBestWins(d: Digest, cs: seq<Candidate>)
    requires cs != []
    ensures
      var i := FirstBest(d, cs);
      && (forall j :: 0 <= j < |cs| ==> !Beats(d, cs[j].register, cs[i].register))
      && (forall j :: 0 <= j < i ==> Beats(d, cs[i].register, cs[j].register))
  {
    var last := cs[|cs| - 1].register;
    BeatsTotal(d, last, last);
    if |cs| > 1 {
      var rest := cs[..|cs| - 1];
      FirstBestWins(d, rest);
      var best := rest[FirstBest(d, rest)].register;
      BeatsTotal(d, last, best);
      if Beats(d, last, best) {
        forall j | 0 <= j < |rest| ensures Beats(d, last, cs[j].register) && !Beats(d, cs[j].register, last) {
          assert cs[j] == rest[j] && !Beats(d, rest[j].register, best);
          BeatsBoth(d, last, best, rest[j].register);
        }
      } else {
        assert forall j :: 0 <= j < |rest| ==> cs[j] == rest[j];
      }
    }
  }

  lemma BeatsBoth(d: Digest, a: Register, b: Register, c: Register)
    requires Beats(d, a, b) && !Beats(d, c, b)
    ensures Beats(d, a, c) && !Beats(d, c, a)
  {
    BeatsTotal(d, a, c);
    BeatsTotal(d, b, c);
    BeatsTotal(d, a, b);
    BeatsAntisymmetric(d, a, b);
    if !Beats(d, a, c) { BeatsTransitive(d, b, c, a); }
    BeatsAntisymmetric(d, a, c);
  }

  lemma BeatsAntisymmetric(d: Digest, a: Register, b: Register)
    requires Beats(d, a, b)
    ensures !Beats(d, b, a)
  {
    LessStrict(a.writer, b.writer, a.writer);
    LessStrict(d(a.value), d(b.value), d(a.value));
    StringsWeaklyOrdered();
  }

  // ---- requests ----

  predicate ByNode(a: Snapshot, b: Snapshot) { Less(a.nodeId, b.nodeId) }

  ghost predicate UniqueKeys(s: Snapshot)
  {
    forall i, j :: 0 <= i < j < |s.registers| ==> s.registers[i].key != s.registers[j].key
  }

  /** What the request models let through: at least one snapshot, no node twice, no key twice in a snapshot. */
  ghost predicate ValidRequest(snapshots: seq<Snapshot>)
  {
    && snapshots != []
    && (forall i, j :: 0 <= i < j < |snapshots| ==> snapshots[i].nodeId != snapshots[j].nodeId)
    && (forall s :: s in snapshots ==> UniqueKeys(s))
  }

  /** sorted(snapshots, key=node_id) */
  function Arranged(snapshots: seq<Snapshot>): seq<Snapshot> { Sort(ByNode, snapshots) }

  // ---- candidates ----

  function CandidatesIn(node: string, registers: seq<Register>, key: string): seq<Candidate>
  {
    if registers == [] then []
    else
      var last := registers[|registers| - 1];
      CandidatesIn(node, registers[..|registers| - 1], key) + if last.key == key then [Candidate(node, last)] else []
  }

  function CandidatesFor(snapshots: seq<Snapshot>, key: string): seq<Candidate>
  {
    if snapshots == [] then []
    else
      var last := snapshots[|snapshots| - 1];
      CandidatesFor(snapshots[..|snapshots| - 1], key) + CandidatesIn(last.nodeId, last.registers, key)
  }

  /** Some snapshot of the node holds the register under the key. */
  ghost predicate IsCandidate(snapshots: seq<Snapshot>, key: string, c: Candidate)
  {
    c.register.key == key && exists s :: s in snapshots && s.nodeId == c.node && c.register in s.registers
  }

  lemma {:induction false} CandidatesInExact(node: string, registers: seq<Register>, key: string, c: Candidate)
    ensures c in CandidatesIn(node, registers, key)
      <==> c.node == node && c.register.key == key && c.register in registers
  {
    if registers != [] {
      var rest := registers[..|registers| - 1];
      CandidatesInExact(node, rest, key, c);
      assert registers == rest + [registers[|registers| - 1]];
    }
  }

  lemma {:induction false} CandidatesExact(snapshots: seq<Snapshot>, key: string, c: Candidate)
    ensures c in CandidatesFor(snapshots, key) <==> IsCandidate(snapshots, key, c)
  {
    if snapshots != [] {
      var rest, last := snapshots[..|snapshots| - 1], snapshots[|snapshots| - 1];
      CandidatesExact(rest, key, c);
      CandidatesInExact(last.nodeId, last.registers, key, c);
      assert snapshots == rest + [last];
    }
  }

  function KeysOf(snapshots: seq<Snapshot>): set<string>
  {
    set s, r | s in snapshots && r in s.registers :: r.key
  }

  lemma KeyHasCandidates(snapshots: seq<Snapshot>, key: string)
    ensures key in KeysOf(snapshots) <==> CandidatesFor(snapshots, key) != []
  {
    if key in KeysOf(snapshots) {
      var s, r :| s in snapshots && r in s.registers && r.key == key;
      CandidatesExact(snapshots, key, Candidate(s.nodeId, r));
    }
    if CandidatesFor(snapshots, key) != [] {
      CandidatesExact(snapshots, key, CandidatesFor(snapshots, key)[0]);
    }
  }

  type Groups = map<string, seq<Candidate>>

  function Group(g: Groups, key: string): seq<Candidate> { if key in g then g[key] else [] }

  /** Every group holds something, and what it holds is the candidates for its key. */
  ghost predicate Grouped(g: Groups, snapshots: seq<Snapshot>)
  {
    forall key :: Group(g, key) == CandidatesFor(snapshots, key) && (key in g ==> g[key] != [])
  }

  /** The groups after these registers of a node. */
  ghost predicate Extended(before: Groups, after: Groups, node: string, registers: seq<Register>)
  {
    forall key ::
      && Group(after, key) == Group(before, key) + CandidatesIn(node, registers, key)
      && (key in after ==> (key in before && after[key] == before[key]) || after[key] != [])
  }

  lemma ExtendOne(before: Groups, g: Groups, node: string, registers: seq<Register>, r: Register)
    requires Extended(before, g, node, registers)
    ensures Extended(before, g[r.key := Group(g, r.key) + [Candidate(node, r)]], node, registers + [r])
  {
    var next := g[r.key := Group(g, r.key) + [Candidate(node, r)]];
    forall key
      ensures Group(next, key) == Group(before, key) + CandidatesIn(node, registers + [r], key)
      ensures key in next ==> (key in before && next[key] == before[key]) || next[key] != []
    {
      ExtendKey(before, g, node, registers, r, key);
    }
  }

  lemma ExtendKey(before: Groups, g: Groups, node: string, registers: seq<Register>, r: Register, key: string)
    requires Group(g, key) == Group(before, key) + CandidatesIn(node, registers, key)
    requires key in g ==> (key in before && g[key] == before[key]) || g[key] != []
    ensures
      var next := g[r.key := Group(g, r.key) + [Candidate(node, r)]];
      && Group(next, key) == Group(before, key) + CandidatesIn(node, registers + [r], key)
      && (key in next ==> (key in before && next[key] == before[key]) || next[key] != [])
  {
    assert (registers + [r])[..|registers|] == registers;
  }

  /** The registers of one snapshot go to the ends of their groups. */
  method AddSnapshot(before: Groups, s: Snapshot) returns (grouped: Groups)
    ensures Extended(before, grouped, s.nodeId, s.registers)
  {
    grouped := before;
    for j := 0 to |s.registers|
      invariant Extended(before, grouped, s.nodeId, s.registers[..j])
    {
      var r := s.registers[j];
      assert s.registers[..j + 1] == s.registers[..j] + [r];
      ExtendOne(before, grouped, s.nodeId, s.registers[..j], r);
      grouped := grouped[r.key := Group(grouped, r.key) + [Candidate(s.nodeId, r)]];
    }
    assert s.registers[..|s.registers|] == s.registers;
  }

  /** grouped[register.key].append((node_id, register)) for every register of every snapshot, in order. */
  method GroupByKey(snapshots: seq<Snapshot>) returns (grouped: Groups)
    ensures Grouped(grouped, snapshots) && grouped.Keys == KeysOf(snapshots)
  {
    grouped := map[];
    for i := 0 to |snapshots|
      invariant Grouped(grouped, snapshots[..i])
    {
      assert snapshots[..i + 1][..i] == snapshots[..i];
      ghost var before := grouped;
      grouped := AddSnapshot(grouped, snapshots[i]);
      NextGrouped(before, grouped, snapshots[..i + 1]);
    }
    assert snapshots[..|snapshots|] == snapshots;
    forall key ensures key in grouped <==> key in KeysOf(snapshots) {
      KeyHasCandidates(snapshots, key);
      assert Group(grouped, key) == CandidatesFor(snapshots, key);
    }
  }

  lemma NextGrouped(before: Groups, after: Groups, snapshots: seq<Snapshot>)
    requires snapshots != [] && Grouped(before, snapshots[..|snapshots| - 1])
    requires var s := snapshots[|snapshots| - 1]; Extended(before, after, s.nodeId, s.registers)
    ensures Grouped(after, snapshots)
  {
    var s := snapshots[|snapshots| - 1];
    forall key ensures Group(after, key) == CandidatesFor(snapshots, key) && (key in after ==> after[key] != []) {
      assert Group(after, key) == Group(before, key) + CandidatesIn(s.nodeId, s.registers, key);
      assert Group(before, key) == CandidatesFor(snapshots[..|snapshots| - 1], key);
    }
  }

  // ---- the merge ----

  datatype Selected = Selected(register: Register, fromNode: string, valueDigest: string)

  datatype Conflict = Conflict(key: string, candidateCount: nat, candidateNodes: seq<string>, selectedWriter: string,
                               selectedNode: string)

  datatype ClockRelation = ClockRelation(left: string, right: string, relation: Relation)

  datatype Body = Body(nodes: seq<string>, mergedClock: Clock, registers: seq<Selected>, conflicts: seq<Conflict>,
                       clockRelations: seq<ClockRelation>)

  function Winner(d: Digest, cs: seq<Candidate>): (w: Candidate)
    requires cs != []
    ensures w in cs
  {
    cs[FirstBest(d, cs)]
  }

  function Nodes(cs: seq<Candidate>): seq<string> { seq(|cs|, i requires 0 <= i < |cs| => cs[i].node) }

  function Dumps(rd: RecordDigest, cs: seq<Candidate>): set<string> { set c | c in cs :: rd(c.register) }

  function ConflictsIn(d: Digest, rd: RecordDigest, key: string, cs: seq<Candidate>): seq<Conflict>
  {
    if cs == [] || |Dumps(rd, cs)| <= 1 then []
    else
      var w := Winner(d, cs);
      [Conflict(key, |cs|, Sort(Less, Nodes(cs)), w.register.writer, w.node)]
  }

  function SelectedIn(d: Digest, tombstones: bool, cs: seq<Candidate>): seq<Selected>
  {
    if cs == [] then []
    else
      var w := Winner(d, cs);
      if !w.register.tombstone || tombstones then [Selected(w.register, w.node, d(w.register.value))] else []
  }

  function AllConflicts(d: Digest, rd: RecordDigest, snapshots: seq<Snapshot>, keys: seq<string>): seq<Conflict>
  {
    if keys == [] then []
    else
      var key := keys[|keys| - 1];
      AllConflicts(d, rd, snapshots, keys[..|keys| - 1]) + ConflictsIn(d, rd, key, CandidatesFor(snapshots, key))
  }

  function AllSelected(d: Digest, tombstones: bool, snapshots: seq<Snapshot>, keys: seq<string>): seq<Selected>
  {
    if keys == [] then []
    else
      AllSelected(d, tombstones, snapshots, keys[..|keys| - 1])
        + SelectedIn(d, tombstones, CandidatesFor(snapshots, keys[|keys| - 1]))
  }

  function RelationsOf(left: Snapshot, rights: seq<Snapshot>): seq<ClockRelation>
  {
    seq(|rights|, i requires 0 <= i < |rights| =>
      ClockRelation(left.nodeId, rights[i].nodeId, Compare(left.clock, rights[i].clock)))
  }

  function Relations(snapshots: seq<Snapshot>): seq<ClockRelation>
  {
    if snapshots == [] then [] else RelationsOf(snapshots[0], snapshots[1..]) + Relations(snapshots[1..])
  }

  function NodeIds(snapshots: seq<Snapshot>): seq<string>
  {
    seq(|snapshots|, i requires 0 <= i < |snapshots| => snapshots[i].nodeId)
  }

  function Clocks(snapshots: seq<Snapshot>): seq<Clock>
  {
    seq(|snapshots|, i requires 0 <= i < |snapshots| => snapshots[i].clock)
  }

  /** The body of the merge of snapshots in order. */
  ghost function BodyOf(d: Digest, rd: RecordDigest, snapshots: seq<Snapshot>, tombstones: bool): Body
  {
    var keys := Sorted(KeysOf(snapshots));
    Body(NodeIds(snapshots), Merged(Clocks(snapshots)), AllSelected(d, tombstones, snapshots, keys),
         AllConflicts(d, rd, snapshots, keys), Relations(snapshots))
  }

  /** One snapshot against all later ones. */
  method CompareWith(left: Snapshot, rights: seq<Snapshot>) returns (relations: seq<ClockRelation>)
    ensures relations == RelationsOf(left, rights)
  {
    relations := [];
    for j := 0 to |rights|
      invariant relations == RelationsOf(left, rights)[..j]
    {
      relations := relations + [ClockRelation(left.nodeId, rights[j].nodeId, Compare(left.clock, rights[j].clock))];
    }
  }

  method CompareAll(snapshots: seq<Snapshot>) returns (relations: seq<ClockRelation>)
    ensures relations == Relations(snapshots)
  {
    relations := [];
    for i := 0 to |snapshots|
      invariant relations + Relations(snapshots[i..]) == Relations(snapshots)
    {
      var left, rights := snapshots[i], snapshots[i + 1..];
      assert snapshots[i..][1..] == rights;
      ghost var before := relations;
      var related := CompareWith(left, rights);
      relations := relations + related;
      assert relations + Relations(rights) == before + Relations(snapshots[i..]);
    }
    assert snapshots[|snapshots|..] == [];
  }

  /** What one group of candidates contributes. */
  method SelectOne(d: Digest, rd: RecordDigest, key: string, candidates: seq<Candidate>, tombstones: bool)
    returns (selected: seq<Selected>, conflicts: seq<Conflict>)
    requires candidates != []
    ensures selected == SelectedIn(d, tombstones, candidates) && conflicts == ConflictsIn(d, rd, key, candidates)
  {
    selected, conflicts := [], [];
    var winner := Winner(d, candidates);
    var distinct := Dumps(rd, candidates);
    if |distinct| > 1 {
      conflicts := [Conflict(key, |candidates|, Sort(Less, Nodes(candidates)), winner.register.writer, winner.node)];
    }
    if !winner.register.tombstone || tombstones {
      selected := [Selected(winner.register, winner.node, d(winner.register.value))];
    }
  }

  /** The last key adds what its candidates contribute. */
  lemma NextKey(d: Digest, rd: RecordDigest, snapshots: seq<Snapshot>, tombstones: bool, keys: seq<string>, i: nat)
    requires i < |keys|
    ensures AllSelected(d, tombstones, snapshots, keys[..i + 1])
      == AllSelected(d, tombstones, snapshots, keys[..i]) + SelectedIn(d, tombstones, CandidatesFor(snapshots, keys[i]))
    ensures AllConflicts(d, rd, snapshots, keys[..i + 1])
      == AllConflicts(d, rd, snapshots, keys[..i]) + ConflictsIn(d, rd, keys[i], CandidatesFor(snapshots, keys[i]))
  {
    assert keys[..i + 1][..i] == keys[..i];
  }

  method SelectAll(d: Digest, rd: RecordDigest, snapshots: seq<Snapshot>, tombstones: bool)
    returns (registers: seq<Selected>, conflicts: seq<Conflict>)
    ensures registers == AllSelected(d, tombstones, snapshots, Sorted(KeysOf(snapshots)))
    ensures conflicts == AllConflicts(d, rd, snapshots, Sorted(KeysOf(snapshots)))
  {
    var grouped := GroupByKey(snapshots);
    var keys := SortSet(grouped.Keys);
    SortedContents(grouped.Keys);
    registers, conflicts := [], [];
    for i := 0 to |keys|
      invariant registers == AllSelected(d, tombstones, snapshots, keys[..i])
      invariant conflicts == AllConflicts(d, rd, snapshots, keys[..i])
    {
      assert keys[i] in keys && grouped[keys[i]] == Group(grouped, keys[i]);
      NextKey(d, rd, snapshots, tombstones, keys, i);
      var selected, conflicting := SelectOne(d, rd, keys[i], grouped[keys[i]], tombstones);
      registers := registers + selected;
      conflicts := conflicts + conflicting;
    }
    assert keys[..|keys|] == keys;
  }

  method MergeSnapshots(d: Digest, rd: RecordDigest, request: seq<Snapshot>, tombstones: bool) returns (body: Body)
    requires ValidRequest(request)
    ensures body == BodyOf(d, rd, Arranged(request), tombstones)
  {
    var snapshots := Sort(ByNode, request);
    var registers, conflicts := SelectAll(d, rd, snapshots, tombstones);
    var relations := CompareAll(snapshots);
    var clock := MergeClocks(Clocks(snapshots));
    body := Body(NodeIds(snapshots), clock, registers, conflicts, relations);
  }
}
