// Least-connections selection with a seeded tie-break (f1_seeded_pick, f1_least_connections_pick).
module LeastConnections {
  import opened Prelude
  import opened Orders
  import opened Tiles

  /** The seeded generator: which index of the sorted candidates it lands on, for a request. Nothing is assumed about
      it. */
  type Rng = (string, seq<string>) -> nat

  datatype Candidate = Candidate(nodeId: string, connections: int, status: Status)

  predicate Online(c: Candidate) { c.status == UP }

  /** rng.choice(sorted(ids)) with a generator seeded by the request and the sorted ids. */
  function SeededPick(rng: Rng, requestId: string, ids: seq<string>): (id: string)
    requires ids != []
    ensures id in ids
  {
    var sorted := Sort(Less, ids);
    SortElements(Less, ids);
    sorted[rng(requestId, sorted) % |sorted|]
  }

  function Fewest(cs: seq<Candidate>): (n: int)
    requires cs != []
    ensures forall c :: c in cs ==> n <= c.connections
    ensures exists c :: c in cs && c.connections == n
  {
    if |cs| == 1 then
      assert cs[0] in cs;
      cs[0].connections
    else
      assert cs == [cs[0]] + cs[1..];
      var rest := Fewest(cs[1..]);
      assert cs[0] in cs;
      if cs[0].connections < rest then cs[0].connections else rest
  }

  function Ids(cs: seq<Candidate>): (ids: seq<string>)
    ensures |ids| == |cs| && forall i :: 0 <= i < |cs| ==> ids[i] == cs[i].nodeId
  {
    seq(|cs|, i requires 0 <= i < |cs| => cs[i].nodeId)
  }

  function FirstWithId(cs: seq<Candidate>, id: string): (c: Candidate)
    requires id in Ids(cs)
    ensures c in cs && c.nodeId == id
  {
    if cs[0].nodeId == id then cs[0]
    else
      IdsCons(cs);
      FirstWithId(cs[1..], id)
  }

  lemma IdsCons(cs: seq<Candidate>)
    requires cs != []
    ensures Ids(cs) == [cs[0].nodeId] + Ids(cs[1..])
    ensures forall c :: c in cs[1..] ==> c in cs
  {
    assert cs == [cs[0]] + cs[1..];
  }

  /** The candidates with the fewest connections. */
  function Tied(cs: seq<Candidate>): (r: seq<Candidate>)
    requires cs != []
    ensures r != []
    ensures forall c :: c in r <==> c in cs && c.connections == Fewest(cs)
    ensures DistinctIds(cs) ==> DistinctIds(r)
  {
    var n := Fewest(cs);
    var fewest := (c: Candidate) => c.connections == n;
    assert forall c :: c in Filter(fewest, cs) <==> c in cs && fewest(c) by {
      forall c ensures c in Filter(fewest, cs) <==> c in cs && fewest(c) { FilterExact(fewest, cs, c); }
    }
    var c :| c in cs && c.connections == n;
    assert c in Filter(fewest, cs);
    assert DistinctIds(cs) ==> DistinctIds(Filter(fewest, cs)) by {
      if DistinctIds(cs) { FilterKeepsDistinct(fewest, cs); }
    }
    Filter(fewest, cs)
  }

  /** The selection, or None when nobody is online. */
  function Pick(rng: Rng, requestId: string, candidates: seq<Candidate>): (r: Option<Candidate>)
  {
    var online := Filter(Online, candidates);
    if online == [] then None
    else
      var tied := Tied(online);
      if |tied| == 1 then Some(tied[0])
      else Some(FirstWithId(tied, SeededPick(rng, requestId, Ids(tied))))
  }

  /** Somebody is picked exactly when somebody is online; the pick is online, with the fewest connections. */
  lemma PickLeastLoaded(rng: Rng, requestId: string, candidates: seq<Candidate>)
    ensures
      var r := Pick(rng, requestId, candidates);
      && (r.Some? <==> exists c :: c in candidates && Online(c))
      && (r.Some? ==> r.value in candidates && Online(r.value))
      && (r.Some? ==> forall c :: c in candidates && Online(c) ==> r.value.connections <= c.connections)
  {
    forall c ensures c in Filter(Online, candidates) <==> c in candidates && Online(c) {
      FilterExact(Online, candidates, c);
    }
    var online := Filter(Online, candidates);
    if online != [] {
      assert online[0] in online;
      var tied := Tied(online);
      assert tied[0] in tied;
      assert Pick(rng, requestId, candidates).value in tied;
    }
  }

  // ---- replay determinism ----

  ghost predicate DistinctIds(cs: seq<Candidate>)
  {
    forall i, j :: 0 <= i < j < |cs| ==> cs[i].nodeId != cs[j].nodeId
  }

  ghost predicate SameCandidates(a: seq<Candidate>, b: seq<Candidate>)
  {
    forall c :: c in a <==> c in b
  }

  lemma {:induction false} FilterKeepsDistinct(p: Candidate -> bool, s: seq<Candidate>)
    requires DistinctIds(s)
    ensures DistinctIds(Filter(p, s))
  {
    if s != [] {
      FilterKeepsDistinct(p, s[1..]);
      var rest := Filter(p, s[1..]);
      forall j | 0 <= j < |rest| ensures rest[j].nodeId != s[0].nodeId {
        assert rest[j] in s[1..];
        var k :| 0 <= k < |s[1..]| && s[1..][k] == rest[j];
        assert s[k + 1] == rest[j];
      }
    }
  }

  lemma SameFewest(a: seq<Candidate>, b: seq<Candidate>)
    requires a != [] && b != [] && SameCandidates(a, b)
    ensures Fewest(a) == Fewest(b) && SameCandidates(Tied(a), Tied(b))
  {
    var m, n := Fewest(a), Fewest(b);
    var x :| x in a && x.connections == m;
    var y :| y in b && y.connections == n;
    assert x in b && y in a;
  }

  lemma SameSeededPick(rng: Rng, requestId: string, a: seq<Candidate>, b: seq<Candidate>)
    requires a != [] && b != [] && DistinctIds(a) && DistinctIds(b) && SameCandidates(a, b)
    ensures SeededPick(rng, requestId, Ids(a)) == SeededPick(rng, requestId, Ids(b))
  {
    forall id | id in Ids(a) ensures id in Ids(b) { SameIds(a, b, id); }
    forall id | id in Ids(b) ensures id in Ids(a) { SameIds(b, a, id); }
    assert Distinct(Ids(a)) && Distinct(Ids(b));
    assert Elements(Ids(a)) == Elements(Ids(b));
    SortGivesSorted(Ids(a));
    SortGivesSorted(Ids(b));
  }

  lemma SameIds(a: seq<Candidate>, b: seq<Candidate>, id: string)
    requires SameCandidates(a, b) && id in Ids(a)
    ensures id in Ids(b)
  {
    var i :| 0 <= i < |a| && Ids(a)[i] == id;
    assert a[i] in b;
    var j :| 0 <= j < |b| && b[j] == a[i];
    assert Ids(b)[j] == id;
  }

  lemma IdsTellApart(s: seq<Candidate>, c: Candidate, d: Candidate)
    requires DistinctIds(s) && c in s && d in s && c.nodeId == d.nodeId
    ensures c == d
  {
  }

  /** With a single candidate the seeded pick lands on it. */
  lemma PickBySeed(rng: Rng, requestId: string, tied: seq<Candidate>)
    requires tied != []
    ensures |tied| == 1 ==> FirstWithId(tied, SeededPick(rng, requestId, Ids(tied))) == tied[0]
  {
    assert |tied| == 1 ==> tied == [tied[0]];
  }

  /** The same request and the same candidates give the same pick, however the candidates are listed. */
  lemma PickDeterministic(rng: Rng, requestId: string, a: seq<Candidate>, b: seq<Candidate>)
    requires DistinctIds(a) && DistinctIds(b) && SameCandidates(a, b)
    ensures Pick(rng, requestId, a) == Pick(rng, requestId, b)
  {
    var on, on' := Filter(Online, a), Filter(Online, b);
    forall c ensures c in on <==> c in on' {
      FilterExact(Online, a, c);
      FilterExact(Online, b, c);
    }
    FilterKeepsDistinct(Online, a);
    FilterKeepsDistinct(Online, b);
    assert on != [] ==> on[0] in on;
    assert on' != [] ==> on'[0] in on';
    if on != [] {
      SameFewest(on, on');
      var tied, tied' := Tied(on), Tied(on');
      SameSeededPick(rng, requestId, tied, tied');
      PickBySeed(rng, requestId, tied);
      PickBySeed(rng, requestId, tied');
      var id := SeededPick(rng, requestId, Ids(tied));
      IdsTellApart(tied, FirstWithId(tied, id), FirstWithId(tied', id));
    }
  }

  /** The ids of the candidates that are up with the fewest connections of those up. */
  ghost function LeastLoaded(candidates: seq<Candidate>): set<string>
  {
    set c | c in candidates && c.status == UP
      && (forall o :: o in candidates && o.status == UP ==> c.connections <= o.connections) :: c.nodeId
  }

  /** The tie-break, exactly: the generator is asked once, for the request and the sorted ids of the least loaded, and
      the pick is the id it lands on. */
  lemma PickExact(rng: Rng, requestId: string, candidates: seq<Candidate>)
    requires DistinctIds(candidates)
    ensures
      var r, ids := Pick(rng, requestId, candidates), Sorted(LeastLoaded(candidates));
      if ids == [] then r == None
      else r.Some? && r.value in candidates && r.value.nodeId == ids[rng(requestId, ids) % |ids|]
  {
    var online := Filter(Online, candidates);
    forall c ensures c in online <==> c in candidates && Online(c) { FilterExact(Online, candidates, c); }
    SortedContents(LeastLoaded(candidates));
    if online != [] {
      var tied := Tied(online);
      FilterKeepsDistinct(Online, candidates);
      TiedAreLeast(candidates, online);
      PickBySeed(rng, requestId, tied);
      SortGivesSorted(Ids(tied));
      assert Sorted(LeastLoaded(candidates)) == Sort(Less, Ids(tied)) != [];
    } else {
      NoneLeast(candidates);
    }
  }

  lemma TiedAreLeast(candidates: seq<Candidate>, online: seq<Candidate>)
    requires online != [] && forall c :: c in online <==> c in candidates && c.status == UP
    ensures Elements(Ids(Tied(online))) == LeastLoaded(candidates)
  {
    var tied, n := Tied(online), Fewest(online);
    var x :| x in online && x.connections == n;
    forall id ensures id in Ids(tied) <==> id in LeastLoaded(candidates) {
      if i :| 0 <= i < |tied| && Ids(tied)[i] == id {
        assert tied[i] in tied && tied[i] in candidates;
        assert forall o :: o in candidates && o.status == UP ==> o in online && tied[i].connections <= o.connections;
      }
      if id in LeastLoaded(candidates) {
        var c :| c in candidates && c.status == UP && c.nodeId == id
          && forall o :: o in candidates && o.status == UP ==> c.connections <= o.connections;
        assert c in online && c.connections == n && c in tied;
        var i :| 0 <= i < |tied| && tied[i] == c;
        assert Ids(tied)[i] == id;
      }
    }
  }

  lemma NoneLeast(candidates: seq<Candidate>)
    requires forall c :: c in candidates ==> c.status != UP
    ensures LeastLoaded(candidates) == {} && Sorted({}) == []
  {
  }

  // ---- balance ----

  /** Connections of two nodes of the group differ by at most one. */
  ghost predicate Balanced(group: set<string>, connections: map<string, int>)
  {
    && group <= connections.Keys
    && forall a, b :: a in group && b in group ==> connections[a] <= connections[b] + 1
  }

  ghost function Sum(group: set<string>, connections: map<string, int>): int
    requires group <= connections.Keys
  {
    if group == {} then 0
    else
      var x :| x in group;
      connections[x] + Sum(group - {x}, connections)
  }

  /** A sum may be taken in any order. */
  lemma {:induction false} SumWithout(group: set<string>, connections: map<string, int>, y: string)
    requires group <= connections.Keys && y in group
    ensures Sum(group, connections) == connections[y] + Sum(group - {y}, connections)
    decreases |group|
  {
    var x :| x in group && Sum(group, connections) == connections[x] + Sum(group - {x}, connections);
    if x != y {
      SumWithout(group - {x}, connections, y);
      assert group - {x} - {y} == group - {y} - {x};
      SumWithout(group - {y}, connections, x);
    }
  }

  lemma {:induction false} SumAgrees(group: set<string>, a: map<string, int>, b: map<string, int>)
    requires group <= a.Keys && group <= b.Keys && forall x :: x in group ==> a[x] == b[x]
    ensures Sum(group, a) == Sum(group, b)
    decreases |group|
  {
    if group != {} {
      var x :| x in group;
      SumAgrees(group - {x}, a, b);
      SumWithout(group, a, x);
      SumWithout(group, b, x);
    }
  }

  lemma SumAfterUpdate(group: set<string>, connections: map<string, int>, x: string, v: int)
    requires group <= connections.Keys && x in group
    ensures Sum(group, connections[x := v]) == Sum(group, connections) - connections[x] + v
  {
    var next := connections[x := v];
    SumAgrees(group - {x}, connections, next);
    SumWithout(group, connections, x);
    SumWithout(group, next, x);
  }

  function Above(group: set<string>, connections: map<string, int>, floor: int): set<string>
    requires group <= connections.Keys
  {
    set x | x in group && connections[x] > floor
  }

  /** Shares of a floor or one more sum to the floor for each, and one for each share above it. */
  lemma {:induction false} SumOfShares(group: set<string>, connections: map<string, int>, floor: int)
    requires group <= connections.Keys && forall x :: x in group ==> floor <= connections[x] <= floor + 1
    ensures Sum(group, connections) == |group| * floor + |Above(group, connections, floor)|
    decreases |group|
  {
    if group != {} {
      var x :| x in group;
      var rest := group - {x};
      SumOfShares(rest, connections, floor);
      SumWithout(group, connections, x);
      Distributes(|rest|, floor);
      assert |group| == |rest| + 1;
      if connections[x] > floor {
        assert Above(group, connections, floor) == Above(rest, connections, floor) + {x};
      } else {
        assert Above(group, connections, floor) == Above(rest, connections, floor);
      }
    }
  }

  lemma Distributes(k: int, n: int)
    ensures (k + 1) * n == k * n + n
  {
  }

  /** Serving a least-loaded member keeps the group balanced. */
  lemma ServingKeepsBalance(group: set<string>, connections: map<string, int>, x: string)
    requires Balanced(group, connections) && x in group
    requires forall y :: y in group ==> connections[x] <= connections[y]
    ensures Balanced(group, connections[x := connections[x] + 1])
    ensures Sum(group, connections[x := connections[x] + 1]) == Sum(group, connections) + 1
  {
    SumAfterUpdate(group, connections, x, connections[x] + 1);
  }

  /** One of m even shares of n: less than one away from n / m. */
  predicate EvenShare(jobs: int, n: int, m: int)
  {
    m > 0 && m * jobs < n + m && n < m * jobs + m
  }

  /** That is n / m, rounded down or up. */
  lemma EvenShareIff(jobs: int, n: int, m: int)
    requires m > 0
    ensures EvenShare(jobs, n, m) <==> jobs == n / m || (n % m != 0 && jobs == n / m + 1)
  {
    var q, r := n / m, n % m;
    assert n == m * q + r;
    assert m * (jobs - q) == m * jobs - m * q;
    if EvenShare(jobs, n, m) {
      assert r - m < m * (jobs - q) < r + m;
      Between(m, jobs - q);
    } else if jobs == q + 1 {
      assert m * (q + 1) == m * q + m;
    }
  }

  lemma Between(m: int, k: int)
    requires m > 0 && -m < m * k < 2 * m
    ensures k == 0 || k == 1
  {
  }

  /** In a balanced group of m nodes with n connections in all, each has n / m of them, rounded down or up. */
  lemma BalancedShares(group: set<string>, connections: map<string, int>, x: string)
    requires Balanced(group, connections) && x in group
    ensures EvenShare(connections[x], Sum(group, connections), |group|)
  {
    var low := LeastMember(group, connections);
    var floor := connections[low];
    var above := Above(group, connections, floor);
    SumOfShares(group, connections, floor);
    ProperSubsetSmaller(above, group, low);
    assert connections[x] > floor ==> x in above;
    ShareIsEven(connections[x], floor, |above|, |group|);
  }

  lemma ShareIsEven(jobs: int, floor: int, above: nat, m: int)
    requires above < m && (jobs == floor || (jobs == floor + 1 && above > 0))
    ensures EvenShare(jobs, m * floor + above, m)
  {
    assert m * (floor + 1) == m * floor + m;
  }

  lemma ProperSubsetSmaller(a: set<string>, b: set<string>, x: string)
    requires a <= b && x in b && x !in a
    ensures |a| < |b|
  {
    Subset(a, b - {x});
  }

  lemma {:induction false} Subset(a: set<string>, b: set<string>)
    requires a <= b
    ensures |a| <= |b|
    decreases |a|
  {
    if a != {} {
      var x :| x in a;
      Subset(a - {x}, b - {x});
    }
  }

  lemma {:induction false} LeastMember(group: set<string>, connections: map<string, int>) returns (low: string)
    requires group <= connections.Keys && group != {}
    ensures low in group && forall y :: y in group ==> connections[low] <= connections[y]
    decreases |group|
  {
    var x :| x in group;
    var rest := group - {x};
    assert group == rest + {x};
    if rest == {} {
      low := x;
    } else {
      low := LeastMember(rest, connections);
      if connections[x] < connections[low] { low := x; }
    }
  }
}
