// Which contiguous layers a joining node is given (assign_layers), in exact arithmetic.
module LayerAssignment {
  import opened Prelude

  /** A registered node: its VRAM and the layers [start, end) it serves. */
  datatype Share = Share(vram: real, start: int, end: int)

  /** Python's round(): to the nearest integer, and to the even one when two are nearest. */
  function RoundHalfEven(x: real): (r: int)
    ensures -0.5 <= r as real - x <= 0.5
    ensures r as real - x == 0.5 || r as real - x == -0.5 ==> r % 2 == 0
  {
    var below := x.Floor;
    var part := x - below as real;
    if part < 0.5 then below
    else if part > 0.5 then below + 1
    else if below % 2 == 0 then below
    else below + 1
  }

  function TotalVram(nodes: seq<Share>): real
  {
    if nodes == [] then 0.0 else TotalVram(nodes[..|nodes| - 1]) + nodes[|nodes| - 1].vram
  }

  /** How many layers the new node's part of the VRAM is worth. */
  function WindowSize(total: int, nodes: seq<Share>, vram: real): int
    requires TotalVram(nodes) + vram != 0.0
  {
    Min(Max(1, RoundHalfEven(total as real * vram / (TotalVram(nodes) + vram))), total)
  }

  /** The VRAM already serving layer i. */
  function Coverage(nodes: seq<Share>, i: int): real
  {
    if nodes == [] then 0.0
    else
      var last := nodes[|nodes| - 1];
      Coverage(nodes[..|nodes| - 1], i) + if last.start <= i < last.end then last.vram else 0.0
  }

  function WindowCoverage(nodes: seq<Share>, start: int, size: nat): real
  {
    if size == 0 then 0.0 else WindowCoverage(nodes, start, size - 1) + Coverage(nodes, start + size - 1)
  }

  /** Totals and coverage add up over the nodes, each of which counts once where it serves. */
  lemma {:induction false} NodesAddUp(a: seq<Share>, b: seq<Share>, x: Share, i: int)
    ensures TotalVram([]) == 0.0 && TotalVram([x]) == x.vram && TotalVram(a + b) == TotalVram(a) + TotalVram(b)
    ensures Coverage([], i) == 0.0 && Coverage([x], i) == if x.start <= i < x.end then x.vram else 0.0
    ensures Coverage(a + b, i) == Coverage(a, i) + Coverage(b, i)
    decreases |b|
  {
    assert [x][..0] == [];
    if b == [] {
      assert a + b == a;
    } else {
      var rest := b[..|b| - 1];
      NodesAddUp(a, rest, x, i);
      assert (a + b)[..|a + b| - 1] == a + rest;
    }
  }

  /** The coverage of a window adds up over its layers. */
  lemma {:induction false} LayersAddUp(nodes: seq<Share>, start: int, m: nat, n: nat)
    ensures WindowCoverage(nodes, start, 1) == Coverage(nodes, start)
    ensures WindowCoverage(nodes, start, m + n) == WindowCoverage(nodes, start, m) + WindowCoverage(nodes, start + m, n)
  {
    assert WindowCoverage(nodes, start, 0) == 0.0;
    if n > 0 { LayersAddUp(nodes, start, m, n - 1); }
  }

  lemma {:induction false} WindowSlides(nodes: seq<Share>, start: int, size: nat)
    ensures WindowCoverage(nodes, start + 1, size) + Coverage(nodes, start)
      == WindowCoverage(nodes, start, size) + Coverage(nodes, start + size)
  {
    if size > 0 { WindowSlides(nodes, start, size - 1); }
  }

  /** The leftmost of the windows with the least summed coverage, among those starting up to `last`. */
  ghost predicate LeftmostLeast(nodes: seq<Share>, size: nat, start: int, last: int)
  {
    && 0 <= start <= last
    && (forall s :: 0 <= s <= last ==> WindowCoverage(nodes, start, size) <= WindowCoverage(nodes, s, size))
    && (forall s :: 0 <= s < start ==> WindowCoverage(nodes, start, size) < WindowCoverage(nodes, s, size))
  }

  /** What the joining node is assigned. */
  ghost predicate Assigned(total: int, nodes: seq<Share>, vram: real, start: int, end: int)
  {
    if TotalVram(nodes) + vram == 0.0 || WindowSize(total, nodes, vram) == total then start == 0 && end == total
    else
      var size := WindowSize(total, nodes, vram);
      0 < size < total && end == start + size && LeftmostLeast(nodes, size, start, total - size)
  }

  /** The coverage array: layer by layer, node by node. */
  method FillCoverage(total: int, nodes: seq<Share>) returns (coverage: array<real>)
    requires forall n :: 0 <= n < |nodes| ==> nodes[n].start >= 0
    ensures fresh(coverage) && coverage.Length == Max(total, 0)
    ensures forall i :: 0 <= i < coverage.Length ==> coverage[i] == Coverage(nodes, i)
  {
    coverage := new real[Max(total, 0)](_ => 0.0);
    for n := 0 to |nodes|
      invariant forall i :: 0 <= i < coverage.Length ==> coverage[i] == Coverage(nodes[..n], i)
    {
      var node := nodes[n];
      assert nodes[..n + 1][..n] == nodes[..n];
      var i, stop := node.start, Min(node.end, total);
      while i < stop
        invariant node.start <= i && (i <= stop || i == node.start)
        invariant forall j :: 0 <= j < coverage.Length ==>
          coverage[j] == if node.start <= j < i then Coverage(nodes[..n + 1], j) else Coverage(nodes[..n], j)
      {
        coverage[i] := coverage[i] + node.vram;
        i := i + 1;
      }
      forall j | 0 <= j < coverage.Length ensures coverage[j] == Coverage(nodes[..n + 1], j) {
        assert nodes[..n + 1][|nodes[..n + 1]| - 1] == node;
      }
    }
    assert nodes[..|nodes|] == nodes;
  }

  /** Slides a window of `size` layers over the coverage, keeping its sum up to date. */
  method LowestWindow(nodes: seq<Share>, coverage: array<real>, size: nat) returns (best: int)
    requires 0 < size <= coverage.Length
    requires forall i :: 0 <= i < coverage.Length ==> coverage[i] == Coverage(nodes, i)
    ensures LeftmostLeast(nodes, size, best, coverage.Length - size)
  {
    var windowSum := 0.0;
    for i := 0 to size
      invariant windowSum == WindowCoverage(nodes, 0, i)
    {
      windowSum := windowSum + coverage[i];
    }
    best := 0;
    var bestSum := windowSum;
    for i := 1 to coverage.Length - size + 1
      invariant windowSum == WindowCoverage(nodes, i - 1, size)
      invariant bestSum == WindowCoverage(nodes, best, size)
      invariant LeftmostLeast(nodes, size, best, i - 1)
    {
      WindowSlides(nodes, i - 1, size);
      windowSum := windowSum + (coverage[i + size - 1] - coverage[i - 1]);
      if windowSum < bestSum {
        bestSum := windowSum;
        best := i;
      }
    }
  }

  method AssignLayers(total: int, nodes: seq<Share>, vram: real) returns (start: int, end: int)
    requires forall n :: 0 <= n < |nodes| ==> nodes[n].start >= 0
    ensures Assigned(total, nodes, vram, start, end)
  {
    var coverage := FillCoverage(total, nodes);
    var totalVram := 0.0;
    for n := 0 to |nodes|
      invariant totalVram == TotalVram(nodes[..n])
    {
      assert nodes[..n + 1][..n] == nodes[..n];
      totalVram := totalVram + nodes[n].vram;
    }
    assert nodes[..|nodes|] == nodes;
    totalVram := totalVram + vram;
    if totalVram == 0.0 { return 0, total; }
    var size := Max(1, RoundHalfEven(total as real * vram / totalVram));
    size := Min(size, total);
    assert totalVram == TotalVram(nodes) + vram;
    assert size == WindowSize(total, nodes, vram);
    if size == total { return 0, total; }
    var best := LowestWindow(nodes, coverage, size);
    return best, best + size;
  }

  /** The assignment is determined by the nodes, and lies within the model. */
  lemma AssignmentUnique(total: int, nodes: seq<Share>, vram: real, s: int, e: int, s': int, e': int)
    requires Assigned(total, nodes, vram, s, e) && Assigned(total, nodes, vram, s', e')
    ensures s == s' && e == e'
    ensures 0 <= s && (total >= 0 ==> e <= total) && (total > 0 ==> s < e)
  {
    if TotalVram(nodes) + vram != 0.0 && WindowSize(total, nodes, vram) != total {
      var size := WindowSize(total, nodes, vram);
      assert WindowCoverage(nodes, s, size) <= WindowCoverage(nodes, s', size);
      assert WindowCoverage(nodes, s', size) <= WindowCoverage(nodes, s, size);
    }
  }

  lemma DivideBack(a: real, b: real)
    requires b != 0.0
    ensures a * b / b == a
  {
  }

  lemma WholeWindow(total: int, vram: real)
    requires vram != 0.0
    ensures RoundHalfEven(total as real * vram / vram) == total
  {
    DivideBack(total as real, vram);
    assert RoundHalfEven(total as real) == total;
  }

  /** The first node, whatever its VRAM, is given the whole model. */
  lemma FirstNodeSpansModel(total: int, vram: real, start: int, end: int)
    requires Assigned(total, [], vram, start, end)
    ensures start == 0 && end == total
  {
    assert TotalVram([]) + vram == vram;
    if vram != 0.0 { WholeWindow(total, vram); }
  }

  // ---- the size of the share ----

  lemma Cancel(c: real, x: real, b: real)
    requires b > 0.0
    ensures (c < x <==> c * b < x * b) && (c == x <==> c * b == x * b)
  {
    if c < x { assert (x - c) * b > 0.0; }
    if c > x { assert (c - x) * b > 0.0; }
  }

  /** k is within a half of share / sum. */
  predicate Nearest(k: real, share: real, sum: real) { -sum <= 2.0 * (share - k * sum) <= sum }

  /** k is exactly a half away from share / sum. */
  predicate HalfAway(k: real, share: real, sum: real)
  {
    2.0 * (share - k * sum) == sum || 2.0 * (share - k * sum) == -sum
  }

  lemma NearScaled(k: real, x: real, sum: real)
    requires sum > 0.0
    ensures -0.5 <= k - x <= 0.5 <==> Nearest(k, x * sum, sum)
    ensures k - x == 0.5 || k - x == -0.5 <==> HalfAway(k, x * sum, sum)
  {
    var y := k - x;
    assert y * sum == k * sum - x * sum;
    Cancel(y, 0.5, sum);
    Cancel(y, -0.5, sum);
  }

  /** The rounded and clamped number of layers, for a part x of the model. */
  lemma Clamped(total: int, x: real, sum: real, share: real, k: int)
    requires total >= 1 && sum > 0.0 && x * sum == share && k == Min(Max(1, RoundHalfEven(x)), total)
    ensures 1 <= k <= total && (x > total as real ==> k == total)
    ensures x <= total as real && 1 < k ==> Nearest(k as real, share, sum)
    ensures x <= total as real && 1 < k && HalfAway(k as real, share, sum) ==> k % 2 == 0
    ensures k == 1 ==> total == 1 || 2.0 * share < 3.0 * sum
  {
    RoundedWithin(total, x);
    NearScaled(k as real, x, sum);
    Cancel(x, 1.5, sum);
  }

  lemma RoundedWithin(total: int, x: real)
    ensures x <= total as real ==> RoundHalfEven(x) <= total
    ensures x > total as real ==> RoundHalfEven(x) >= total
    ensures RoundHalfEven(x) <= 1 ==> x < 1.5
  {
    var r := RoundHalfEven(x);
    if r >= total + 1 { assert r as real >= total as real + 1.0; }
    if r <= total - 1 { assert r as real <= total as real - 1.0; }
    if r <= 1 { assert r as real <= 1.0 && r as real - x >= -0.5; }
  }

  /** The part of the model that the size of the window is rounded from. */
  lemma SizeFrom(total: int, nodes: seq<Share>, vram: real, start: int, end: int)
    returns (x: real, sum: real, share: real)
    requires Assigned(total, nodes, vram, start, end) && TotalVram(nodes) + vram != 0.0
    ensures sum == TotalVram(nodes) + vram && x * sum == share == total as real * vram
    ensures end - start == Min(Max(1, RoundHalfEven(x)), total)
  {
    sum, share := TotalVram(nodes) + vram, total as real * vram;
    x := share / sum;
  }

  /** What a node is given, said with products: the nearest number k of layers to its share of them by VRAM, an even
      one if two are nearest, but at least one layer and at most all of them. */
  lemma ProportionalShare(total: int, nodes: seq<Share>, vram: real, start: int, end: int,
                          sum: real, share: real, k: int)
    requires Assigned(total, nodes, vram, start, end) && total >= 1 && vram >= 0.0
    requires sum == TotalVram(nodes) + vram > 0.0 && share == total as real * vram && k == end - start
    ensures 1 <= k <= total && (vram > sum ==> k == total)
    ensures vram <= sum && 1 < k ==> -sum <= 2.0 * (share - k as real * sum) <= sum
    ensures vram <= sum && 1 < k ==>
      (2.0 * (share - k as real * sum) == sum || 2.0 * (share - k as real * sum) == -sum ==> k % 2 == 0)
    ensures k == 1 ==> total == 1 || 2.0 * share < 3.0 * sum
  {
    var x, _, _ := SizeFrom(total, nodes, vram, start, end);
    ShareFrom(total, vram, sum, share, x, k);
  }

  lemma ShareFrom(total: int, vram: real, sum: real, share: real, x: real, k: int)
    requires total >= 1 && sum > 0.0 && share == total as real * vram && x * sum == share
    requires k == Min(Max(1, RoundHalfEven(x)), total)
    ensures 1 <= k <= total && (vram > sum ==> k == total)
    ensures vram <= sum && 1 < k ==> -sum <= 2.0 * (share - k as real * sum) <= sum
    ensures vram <= sum && 1 < k ==>
      (2.0 * (share - k as real * sum) == sum || 2.0 * (share - k as real * sum) == -sum ==> k % 2 == 0)
    ensures k == 1 ==> total == 1 || 2.0 * share < 3.0 * sum
  {
    AgainstAll(total as real, vram, sum, x);
    Clamped(total, x, sum, share, k);
  }

  /** It is at most the whole model, unless the others' VRAM is below nothing. */
  lemma AgainstAll(total: real, vram: real, sum: real, x: real)
    requires total > 0.0 && sum > 0.0 && x * sum == total * vram
    ensures x <= total <==> vram <= sum
  {
    var worth, whole := x * sum, total * sum;
    assert worth - whole == total * (vram - sum);
    assert worth - whole == (x - total) * sum;
    SignOf(total, vram - sum);
    SignOf(sum, x - total);
    assert (x - total) * sum == sum * (x - total);
  }

  lemma SignOf(a: real, b: real)
    requires a > 0.0
    ensures b > 0.0 <==> a * b > 0.0
  {
    if b > 0.0 { assert a * b > 0.0; } else { assert a * -b >= 0.0; }
  }

  /** A node with at least as much VRAM is never given fewer layers. */
  lemma MoreVramMoreLayers(total: int, nodes: seq<Share>, vram: real, start: int, end: int,
                           vram': real, start': int, end': int)
    requires Assigned(total, nodes, vram, start, end) && Assigned(total, nodes, vram', start', end') && total >= 1
    requires TotalVram(nodes) >= 0.0 && 0.0 <= vram <= vram' && TotalVram(nodes) + vram > 0.0
    ensures end - start <= end' - start'
  {
    var x, sum, share := SizeFrom(total, nodes, vram, start, end);
    var x', sum', share' := SizeFrom(total, nodes, vram', start', end');
    SizesGrow(total, TotalVram(nodes), vram, vram', sum, sum', share, share', x, x', end - start, end' - start');
  }

  lemma SizesGrow(total: int, others: real, v: real, v': real, b: real, b': real, share: real, share': real,
                  x: real, x': real, k: int, k': int)
    requires total > 0 && others >= 0.0 && 0.0 <= v <= v' && b == others + v && b' == others + v' && b > 0.0
    requires x * b == share == total as real * v && x' * b' == share' == total as real * v'
    requires k == Min(Max(1, RoundHalfEven(x)), total) && k' == Min(Max(1, RoundHalfEven(x')), total)
    ensures k <= k'
  {
    PartsGrow(total as real, others, v, v', b, b', share, share', x, x');
    assert RoundHalfEven(x) <= RoundHalfEven(x');
  }

  lemma PartsGrow(total: real, others: real, v: real, v': real, b: real, b': real, share: real, share': real,
                  x: real, x': real)
    requires total > 0.0 && others >= 0.0 && 0.0 <= v <= v' && b == others + v && b' == others + v' && b > 0.0
    requires x * b == share == total * v && x' * b' == share' == total * v'
    ensures x <= x'
  {
    assert v * others <= v' * others;
    assert v * b' <= v' * b;
    assert (x * b) * b' == total * (v * b') && (x' * b') * b == total * (v' * b);
    assert total * (v * b') <= total * (v' * b);
    var c := b * b';
    assert c > 0.0;
    assert x * c == (x * b) * b' && x' * c == (x' * b') * b;
    Cancel(x', x, c);
  }
}
