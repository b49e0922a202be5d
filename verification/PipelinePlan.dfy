// Routing records, and the greedy cover of the model's layers by nodes that are up (_pipeline_plan).
module Tiles {

  datatype Status = UP | DOWN

  /** The coordinator's routing record for one node. */
  datatype NodeTile = NodeTile(
    nodeId: string, nodeName: string, hostname: string, port: int, arch: string, backend: string,
    vram: real, cpuRam: real, layerStart: int, layerEnd: int, token: string,
    status: Status, totalJobs: int, contribution: real, lastSeen: real)

  function Filter<T>(p: T -> bool, s: seq<T>): (r: seq<T>)
    ensures forall x :: x in r ==> x in s && p(x)
    ensures |r| <= |s|
  {
    if s == [] then [] else if p(s[0]) then [s[0]] + Filter(p, s[1..]) else Filter(p, s[1..])
  }

  lemma {:induction false} FilterExact<T>(p: T -> bool, s: seq<T>, x: T)
    ensures x in Filter(p, s) <==> x in s && p(x)
  {
    if s != [] {
      FilterExact(p, s[1..], x);
      assert s == [s[0]] + s[1..];
    }
  }
}

module PipelinePlan {
  import opened Orders
  import opened Tiles

  predicate ByRange(a: NodeTile, b: NodeTile)
  {
    a.layerStart < b.layerStart || (a.layerStart == b.layerStart && a.layerEnd < b.layerEnd)
  }

  predicate IsUp(t: NodeTile) { t.status == UP }

  predicate Reaches(t: NodeTile, cursor: int) { t.layerStart <= cursor < t.layerEnd }

  // ---- what a greedy plan is ----

  /** The first layer not yet served after k stages. */
  function Cursor(stages: seq<NodeTile>, k: nat): int
    requires k <= |stages|
  {
    if k == 0 then 0 else stages[k - 1].layerEnd
  }

  /** Of the tiles that serve the layer at the cursor, one reaching furthest, and of those one starting first. */
  ghost predicate Furthest(up: seq<NodeTile>, cursor: int, t: NodeTile)
  {
    && t in up && Reaches(t, cursor)
    && forall u :: u in up && Reaches(u, cursor) ==>
      u.layerEnd < t.layerEnd || (u.layerEnd == t.layerEnd && t.layerStart <= u.layerStart)
  }

  ghost predicate GreedyStage(up: seq<NodeTile>, total: int, stages: seq<NodeTile>, i: nat)
    requires i < |stages|
  {
    Cursor(stages, i) < total && Furthest(up, Cursor(stages, i), stages[i])
  }

  ghost predicate Greedy(up: seq<NodeTile>, total: int, stages: seq<NodeTile>)
  {
    forall i :: 0 <= i < |stages| ==> GreedyStage(up, total, stages, i)
  }

  /** A plan is greedy, and stops only at the end of the model or at a layer that no tile serves. */
  ghost predicate Plan(up: seq<NodeTile>, total: int, stages: seq<NodeTile>, covered: bool)
  {
    var cursor := Cursor(stages, |stages|);
    && Greedy(up, total, stages)
    && (covered <==> cursor >= total)
    && (!covered ==> forall u :: u in up ==> !Reaches(u, cursor))
  }

  ghost predicate Serves(tiles: seq<NodeTile>, layer: int)
  {
    exists t :: t in tiles && t.layerStart <= layer < t.layerEnd
  }

  ghost predicate ServedBySet(tiles: set<NodeTile>, layer: int)
  {
    exists t :: t in tiles && t.layerStart <= layer < t.layerEnd
  }

  /** The cursor after every stage is the largest so far: no tile is used twice, and stages meet without a gap. */
  lemma {:induction false} EndsIncrease(up: seq<NodeTile>, total: int, stages: seq<NodeTile>, i: nat, j: nat)
    requires Greedy(up, total, stages) && i < j <= |stages|
    ensures Cursor(stages, i) < Cursor(stages, j)
  {
    assert GreedyStage(up, total, stages, j - 1);
    if i < j - 1 { EndsIncrease(up, total, stages, i, j - 1); }
  }

  lemma {:induction false} StagesServe(up: seq<NodeTile>, total: int, stages: seq<NodeTile>, k: nat, layer: int)
    requires Greedy(up, total, stages) && k <= |stages| && 0 <= layer < Cursor(stages, k)
    ensures Serves(stages, layer) && Serves(up, layer)
  {
    if k > 0 {
      assert GreedyStage(up, total, stages, k - 1);
      if layer < Cursor(stages, k - 1) {
        StagesServe(up, total, stages, k - 1, layer);
      } else {
        assert stages[k - 1] in stages && Reaches(stages[k - 1], layer);
      }
    }
  }

  /** The plan says it covers the model exactly when some node serves every layer; otherwise its stages serve every
      layer up to one that nobody serves. */
  lemma CoveredExactly(up: seq<NodeTile>, total: int, stages: seq<NodeTile>, covered: bool)
    requires Plan(up, total, stages, covered)
    ensures covered <==> forall layer :: 0 <= layer < total ==> Serves(up, layer)
    ensures !covered ==>
      var gap := Cursor(stages, |stages|);
      0 <= gap < total && !Serves(up, gap) && forall layer :: 0 <= layer < gap ==> Serves(stages, layer)
  {
    var cursor := Cursor(stages, |stages|);
    if stages != [] { EndsIncrease(up, total, stages, 0, |stages|); }
    forall layer | 0 <= layer < cursor ensures Serves(up, layer) && Serves(stages, layer) {
      StagesServe(up, total, stages, |stages|, layer);
    }
    assert !covered ==> !Serves(up, cursor);
  }

  // ---- optimality ----

  /** A tile that serves the first layer of stage i ends before the first layer of any later stage but the next. */
  lemma ServesOneStart(up: seq<NodeTile>, total: int, stages: seq<NodeTile>, i: nat, j: nat, t: NodeTile)
    requires Greedy(up, total, stages) && i < j < |stages| && t in up && Reaches(t, Cursor(stages, i))
    ensures !Reaches(t, Cursor(stages, j))
  {
    assert GreedyStage(up, total, stages, i);
    assert t.layerEnd <= Cursor(stages, i + 1);
    if i + 1 < j { EndsIncrease(up, total, stages, i + 1, j); }
  }

  /** Any tiles that serve the first layer of each of the first k stages are at least k. */
  lemma {:induction false} OnePerStage(up: seq<NodeTile>, total: int, stages: seq<NodeTile>, k: nat,
                                       tiles: set<NodeTile>)
    requires Greedy(up, total, stages) && k <= |stages|
    requires forall t :: t in tiles ==> t in up
    requires forall i :: 0 <= i < k ==> ServedBySet(tiles, Cursor(stages, i))
    ensures |tiles| >= k
  {
    if k > 0 {
      assert ServedBySet(tiles, Cursor(stages, k - 1));
      var last :| last in tiles && Reaches(last, Cursor(stages, k - 1));
      var rest := tiles - {last};
      forall i | 0 <= i < k - 1 ensures ServedBySet(rest, Cursor(stages, i)) {
        assert ServedBySet(tiles, Cursor(stages, i));
        var t :| t in tiles && Reaches(t, Cursor(stages, i));
        ServesOneStart(up, total, stages, i, k - 1, t);
        assert t in rest;
      }
      OnePerStage(up, total, stages, k - 1, rest);
      assert |tiles| == |rest| + 1;
    }
  }

  /** No set of nodes that are up covers the model with fewer members than the plan. */
  lemma GreedyOptimal(up: seq<NodeTile>, total: int, stages: seq<NodeTile>, covered: bool, tiles: set<NodeTile>)
    requires Plan(up, total, stages, covered)
    requires forall t :: t in tiles ==> t in up
    requires forall layer :: 0 <= layer < total ==> ServedBySet(tiles, layer)
    ensures covered && |stages| <= |tiles|
  {
    forall layer | 0 <= layer < total ensures Serves(up, layer) {
      assert ServedBySet(tiles, layer);
      var t :| t in tiles && Reaches(t, layer);
    }
    CoveredExactly(up, total, stages, covered);
    forall i | 0 <= i < |stages| ensures ServedBySet(tiles, Cursor(stages, i)) {
      assert GreedyStage(up, total, stages, i);
      if i > 0 { EndsIncrease(up, total, stages, 0, i); }
    }
    OnePerStage(up, total, stages, |stages|, tiles);
  }

  ghost predicate Link(up: seq<NodeTile>, c: seq<NodeTile>, i: nat)
    requires i < |c|
  {
    c[i] in up && c[i].layerStart <= Cursor(c, i)
  }

  /** Each tile of a chain starts no later than where the one before it ends. */
  ghost predicate Chain(up: seq<NodeTile>, c: seq<NodeTile>)
  {
    forall i :: 0 <= i < |c| ==> Link(up, c, i)
  }

  /** After as many stages the greedy cursor is at least as far as that of any other chain. */
  lemma {:induction false} GreedyStaysAhead(up: seq<NodeTile>, total: int, stages: seq<NodeTile>, c: seq<NodeTile>,
                                            k: nat)
    requires Greedy(up, total, stages) && Chain(up, c) && k <= |c| && k <= |stages|
    ensures Cursor(c, k) <= Cursor(stages, k)
  {
    if k > 0 {
      GreedyStaysAhead(up, total, stages, c, k - 1);
      assert GreedyStage(up, total, stages, k - 1) && Link(up, c, k - 1);
      var t := c[k - 1];
      assert t.layerEnd > Cursor(stages, k - 1) ==> Reaches(t, Cursor(stages, k - 1));
    }
  }

  // ---- independence of the order of joining ----

  predicate SameRange(a: NodeTile, b: NodeTile) { a.layerStart == b.layerStart && a.layerEnd == b.layerEnd }

  ghost predicate Offers(up: seq<NodeTile>, t: NodeTile)
  {
    exists u :: u in up && SameRange(t, u)
  }

  /** The two formations offer the same layer ranges. */
  ghost predicate SameRanges(up: seq<NodeTile>, up': seq<NodeTile>)
  {
    && (forall t {:trigger Offers(up', t)} :: t in up ==> Offers(up', t))
    && (forall t {:trigger Offers(up, t)} :: t in up' ==> Offers(up, t))
  }

  lemma FurthestAgree(up: seq<NodeTile>, up': seq<NodeTile>, cursor: int, t: NodeTile, t': NodeTile)
    requires SameRanges(up, up') && Furthest(up, cursor, t) && Furthest(up', cursor, t')
    ensures SameRange(t, t')
  {
    assert Offers(up', t) && Offers(up, t');
    var u' :| u' in up' && SameRange(t, u');
    var u :| u in up && SameRange(t', u);
  }

  /** A plan that goes on at a cursor excludes a plan that stops there. */
  lemma BothGoOn(up: seq<NodeTile>, up': seq<NodeTile>, total: int, stages: seq<NodeTile>, k: nat,
                 stages': seq<NodeTile>, covered': bool)
    requires SameRanges(up, up') && Greedy(up, total, stages) && Plan(up', total, stages', covered')
    requires k < |stages| && k <= |stages'| && Cursor(stages, k) == Cursor(stages', k)
    ensures k < |stages'|
  {
    var cursor := Cursor(stages, k);
    assert GreedyStage(up, total, stages, k);
    assert Offers(up', stages[k]);
    var u :| u in up' && SameRange(stages[k], u);
    assert Reaches(u, cursor);
  }

  lemma {:induction false} RangesDetermined(up: seq<NodeTile>, up': seq<NodeTile>, total: int,
                                            stages: seq<NodeTile>, stages': seq<NodeTile>, k: nat)
    requires SameRanges(up, up') && Greedy(up, total, stages) && Greedy(up', total, stages')
    requires k <= |stages| && k <= |stages'|
    ensures Cursor(stages, k) == Cursor(stages', k)
    ensures forall i :: 0 <= i < k ==> SameRange(stages[i], stages'[i])
  {
    if k > 0 {
      RangesDetermined(up, up', total, stages, stages', k - 1);
      assert GreedyStage(up, total, stages, k - 1) && GreedyStage(up', total, stages', k - 1);
      FurthestAgree(up, up', Cursor(stages, k - 1), stages[k - 1], stages'[k - 1]);
    }
  }

  /** The ranges a plan walks depend only on the ranges offered, not on who joined first. */
  lemma PlansAgree(up: seq<NodeTile>, up': seq<NodeTile>, total: int,
                   stages: seq<NodeTile>, covered: bool, stages': seq<NodeTile>, covered': bool)
    requires SameRanges(up, up') && Plan(up, total, stages, covered) && Plan(up', total, stages', covered')
    ensures |stages| == |stages'| && covered == covered'
    ensures forall i :: 0 <= i < |stages| ==> SameRange(stages[i], stages'[i])
  {
    var k := if |stages| <= |stages'| then |stages| else |stages'|;
    RangesDetermined(up, up', total, stages, stages', k);
    if k == |stages'| {
      if k != |stages| { BothGoOn(up, up', total, stages, k, stages', covered'); }
    } else {
      BothGoOn(up', up, total, stages', k, stages, covered);
    }
  }

  // ---- the planner ----

  lemma RangesWeaklyOrdered()
    ensures WeakOrder(ByRange)
  {
  }

  /** max(tiles, key=layer_end): the first of the tiles that reach furthest. */
  function FirstFurthest(tiles: seq<NodeTile>): (i: nat)
    requires tiles != []
    ensures i < |tiles|
    ensures forall j :: 0 <= j < |tiles| ==> tiles[j].layerEnd <= tiles[i].layerEnd
    ensures forall j :: 0 <= j < i ==> tiles[j].layerEnd < tiles[i].layerEnd
  {
    if |tiles| == 1 then 0
    else
      var i := FirstFurthest(tiles[..|tiles| - 1]);
      if tiles[|tiles| - 1].layerEnd > tiles[i].layerEnd then |tiles| - 1 else i
  }

  lemma {:induction false} FilterAscending(p: NodeTile -> bool, s: seq<NodeTile>)
    requires Ascending(ByRange, s)
    ensures Ascending(ByRange, Filter(p, s))
  {
    if s != [] {
      FilterAscending(p, s[1..]);
      var rest := Filter(p, s[1..]);
      forall j | 0 <= j < |rest| ensures !ByRange(rest[j], s[0]) {
        assert rest[j] in s[1..];
        var k :| 0 <= k < |s[1..]| && s[1..][k] == rest[j];
        assert s[k + 1] == rest[j];
      }
    }
  }

  lemma {:induction false} FilterRemoves(p: NodeTile -> bool, s: seq<NodeTile>, t: NodeTile)
    requires t in s && !p(t)
    ensures |Filter(p, s)| < |s|
  {
    if s[0] != t {
      assert s == [s[0]] + s[1..];
      FilterRemoves(p, s[1..], t);
    }
  }

  lemma ExtendGreedy(up: seq<NodeTile>, total: int, stages: seq<NodeTile>, best: NodeTile)
    requires Greedy(up, total, stages)
    requires Cursor(stages, |stages|) < total && Furthest(up, Cursor(stages, |stages|), best)
    ensures Greedy(up, total, stages + [best])
  {
    var longer := stages + [best];
    forall i | 0 <= i < |longer| ensures GreedyStage(up, total, longer, i) {
      if i < |stages| { assert GreedyStage(up, total, stages, i); }
    }
  }

  /** The first furthest of the tiles in range order starts first among the furthest. */
  lemma FirstFurthestWins(up: seq<NodeTile>, cursor: int, reachable: seq<NodeTile>)
    requires reachable != [] && Ascending(ByRange, reachable)
    requires forall t :: t in reachable <==> t in up && Reaches(t, cursor)
    ensures Furthest(up, cursor, reachable[FirstFurthest(reachable)])
  {
    var i := FirstFurthest(reachable);
    var best := reachable[i];
    forall u | u in up && Reaches(u, cursor)
      ensures u.layerEnd < best.layerEnd || (u.layerEnd == best.layerEnd && best.layerStart <= u.layerStart)
    {
      assert u in reachable;
      var j :| 0 <= j < |reachable| && reachable[j] == u;
      assert j > i ==> !ByRange(reachable[j], reachable[i]);
    }
  }

  /** A plan depends on the tiles, not on how they are listed. */
  lemma PlanRelists(up: seq<NodeTile>, up': seq<NodeTile>, total: int, stages: seq<NodeTile>, covered: bool)
    requires (forall t :: t in up <==> t in up') && Plan(up, total, stages, covered)
    ensures Plan(up', total, stages, covered)
  {
    forall i | 0 <= i < |stages| ensures GreedyStage(up', total, stages, i) {
      assert GreedyStage(up, total, stages, i);
    }
  }

  /** The walk over the tiles that are up, in range order. */
  method Walk(up: seq<NodeTile>, total: int) returns (stages: seq<NodeTile>, covered: bool)
    requires Ascending(ByRange, up)
    ensures Plan(up, total, stages, covered)
  {
    stages := [];
    var remaining, cursor, guard := up, 0, |up| + 1;
    while cursor < total && guard > 0
      invariant guard >= 1 + |remaining|
      invariant cursor == Cursor(stages, |stages|)
      invariant Ascending(ByRange, remaining)
      invariant forall t :: t in remaining ==> t in up
      invariant forall t :: t in up && t.layerEnd > cursor ==> t in remaining
      invariant Greedy(up, total, stages)
      decreases guard
    {
      guard := guard - 1;
      var reachable := Filter((t: NodeTile) => Reaches(t, cursor), remaining);
      forall t ensures t in reachable <==> t in up && Reaches(t, cursor) {
        FilterExact((t: NodeTile) => Reaches(t, cursor), remaining, t);
      }
      if reachable == [] {
        assert forall u :: u in up ==> (Reaches(u, cursor) <==> u in reachable);
        return stages, false;
      }
      FilterAscending((t: NodeTile) => Reaches(t, cursor), remaining);
      FirstFurthestWins(up, cursor, reachable);
      var best := reachable[FirstFurthest(reachable)];
      ExtendGreedy(up, total, stages, best);
      stages := stages + [best];
      cursor := best.layerEnd;
      remaining := Without(best, remaining);
    }
    return stages, cursor >= total;
  }

  /** [t for t in remaining if t is not best] */
  function Without(best: NodeTile, remaining: seq<NodeTile>): (r: seq<NodeTile>)
    requires best in remaining && Ascending(ByRange, remaining)
    ensures |r| < |remaining| && Ascending(ByRange, r)
    ensures forall t :: t in r <==> t in remaining && t != best
  {
    var others := (t: NodeTile) => t != best;
    FilterRemoves(others, remaining, best);
    FilterAscending(others, remaining);
    assert forall t :: t in Filter(others, remaining) <==> t in remaining && t != best by {
      forall t ensures t in Filter(others, remaining) <==> t in remaining && t != best {
        FilterExact(others, remaining, t);
      }
    }
    Filter(others, remaining)
  }

  method MakePlan(tiles: seq<NodeTile>, total: int) returns (stages: seq<NodeTile>, covered: bool)
    ensures Plan(Filter(IsUp, tiles), total, stages, covered)
  {
    var up := Filter(IsUp, tiles);
    RangesWeaklyOrdered();
    SortAscending(ByRange, up);
    SortElements(ByRange, up);
    stages, covered := Walk(Sort(ByRange, up), total);
    PlanRelists(Sort(ByRange, up), up, total, stages, covered);
  }
}
