// Python's ordering of strings, its stable sort, and what sorting determines.
module Orders {

  // ---- Python's `<` on str: lexicographic by code point ----

  predicate Less(a: string, b: string)
  {
    && b != []
    && (a == [] || a[0] < b[0] || (a[0] == b[0] && Less(a[1..], b[1..])))
  }

  lemma {:induction false} LessIrreflexive(a: string)
    ensures !Less(a, a)
  {
    if a != [] { LessIrreflexive(a[1..]); }
  }

  lemma {:induction false} LessTransitive(a: string, b: string, c: string)
    requires Less(a, b) && Less(b, c)
    ensures Less(a, c)
  {
    if a != [] && a[0] == b[0] == c[0] { LessTransitive(a[1..], b[1..], c[1..]); }
  }

  lemma {:induction false} LessTotal(a: string, b: string)
    ensures Less(a, b) || a == b || Less(b, a)
  {
    if a != [] && b != [] && a[0] == b[0] {
      LessTotal(a[1..], b[1..]);
      assert a == [a[0]] + a[1..] && b == [b[0]] + b[1..];
    }
  }

  lemma OneOfThree(a: string, b: string)
    ensures a == b ==> !Less(a, b)
    ensures a != b ==> Less(a, b) != Less(b, a)
  {
    LessTotal(a, b);
    LessIrreflexive(a);
    if Less(a, b) && Less(b, a) { LessTransitive(a, b, a); }
  }

  /** At the first place where the strings differ the first has the lesser character; or it is a proper prefix. */
  lemma {:induction false} LessExact(a: string, b: string)
    ensures Less(a, b) <==>
      || (|a| < |b| && a == b[..|a|])
      || exists k :: 0 <= k < |a| && k < |b| && a[..k] == b[..k] && a[k] < b[k]
  {
    if a != [] && b != [] && a[0] == b[0] {
      var a', b' := a[1..], b[1..];
      LessExact(a', b');
      assert a == [a[0]] + a' && b == [a[0]] + b';
      if |a| < |b| && a == b[..|a|] { assert a' == b[..|a|][1..] == b'[..|a'|]; }
      if |a'| < |b'| && a' == b'[..|a'|] { assert b[..|a|] == [a[0]] + b'[..|a'|]; }
      if k :| 0 <= k < |a| && k < |b| && a[..k] == b[..k] && a[k] < b[k] {
        assert a'[..k - 1] == a[..k][1..] == b[..k][1..] == b'[..k - 1] && a'[k - 1] < b'[k - 1];
      }
      if k :| 0 <= k < |a'| && k < |b'| && a'[..k] == b'[..k] && a'[k] < b'[k] {
        assert a[..k + 1] == [a[0]] + a'[..k] == [a[0]] + b'[..k] == b[..k + 1];
        assert a[k + 1] < b[k + 1];
      }
    } else if a != [] && b != [] {
      assert a[..0] == b[..0];
      if k :| 0 <= k < |a| && k < |b| && a[..k] == b[..k] && a[k] < b[k] {
        if k > 0 { assert a[..k][0] == b[..k][0]; }
      }
    }
  }

  // ---- strict orders ----

  ghost predicate StrictOrder<T(!new)>(lt: (T, T) -> bool)
  {
    && (forall x :: !lt(x, x))
    && (forall x, y, z :: lt(x, y) && lt(y, z) ==> lt(x, z))
  }

  /** A strict order whose incomparable elements form classes, as Python's key functions give. */
  ghost predicate WeakOrder<T(!new)>(lt: (T, T) -> bool)
  {
    && StrictOrder(lt)
    && (forall x, y, z :: lt(x, z) ==> lt(x, y) || lt(y, z))
  }

  lemma StringsWeaklyOrdered()
    ensures WeakOrder(Less)
  {
    forall x: string ensures !Less(x, x) { LessIrreflexive(x); }
    forall x, y, z | Less(x, y) && Less(y, z) ensures Less(x, z) { LessTransitive(x, y, z); }
    forall x: string, y: string, z: string | Less(x, z) ensures Less(x, y) || Less(y, z) {
      LessTotal(x, y);
      if Less(y, x) { LessTransitive(y, x, z); }
    }
  }

  // ---- Python's stable sort ----

  ghost predicate Ascending<T>(lt: (T, T) -> bool, s: seq<T>)
  {
    forall i, j :: 0 <= i < j < |s| ==> !lt(s[j], s[i])
  }

  ghost predicate StrictlyAscending<T>(lt: (T, T) -> bool, s: seq<T>)
  {
    forall i, j :: 0 <= i < j < |s| ==> lt(s[i], s[j])
  }

  /** Put x in front of the first element that is not below it. */
  function Insert<T>(lt: (T, T) -> bool, x: T, s: seq<T>): (r: seq<T>)
    ensures multiset(r) == multiset(s) + multiset{x}
    ensures |r| == |s| + 1
  {
    if s == [] then [x]
    else if !lt(s[0], x) then [x] + s
    else
      assert s == [s[0]] + s[1..];
      [s[0]] + Insert(lt, x, s[1..])
  }

  function Sort<T>(lt: (T, T) -> bool, s: seq<T>): (r: seq<T>)
    ensures multiset(r) == multiset(s)
    ensures |r| == |s|
  {
    if s == [] then []
    else
      assert s == [s[0]] + s[1..];
      Insert(lt, s[0], Sort(lt, s[1..]))
  }

  lemma {:induction false} InsertAscending<T(!new)>(lt: (T, T) -> bool, x: T, s: seq<T>)
    requires WeakOrder(lt) && Ascending(lt, s)
    ensures Ascending(lt, Insert(lt, x, s))
  {
    if s != [] && lt(s[0], x) {
      var rest := Insert(lt, x, s[1..]);
      InsertAscending(lt, x, s[1..]);
      forall j | 0 <= j < |rest| ensures !lt(rest[j], s[0]) {
        assert rest[j] in multiset(rest);
        if rest[j] != x {
          assert rest[j] in s[1..];
          var k :| 0 <= k < |s[1..]| && s[1..][k] == rest[j];
          assert s[k + 1] == rest[j];
        }
      }
    } else if s != [] {
      forall j | 0 <= j < |s| ensures !lt(s[j], x) {
        var y, first := s[j], s[0];
        assert lt(y, x) ==> lt(y, first) || lt(first, x);
      }
    }
  }

  lemma {:induction false} SortAscending<T(!new)>(lt: (T, T) -> bool, s: seq<T>)
    requires WeakOrder(lt)
    ensures Ascending(lt, Sort(lt, s))
  {
    if s != [] {
      SortAscending(lt, s[1..]);
      InsertAscending(lt, s[0], Sort(lt, s[1..]));
    }
  }

  ghost predicate Distinct<T>(s: seq<T>)
  {
    forall i, j :: 0 <= i < j < |s| ==> s[i] != s[j]
  }

  lemma OneElement<T>(s: set<T>, x: T)
    requires x in s
    ensures |s| == 1 <==> s == {x}
  {
    assert s == (s - {x}) + {x};
    assert |s - {x}| == |s| - 1;
  }

  function Elements<T>(s: seq<T>): set<T>
  {
    set x | x in s
  }

  lemma {:induction false} ElementsCount<T>(s: seq<T>)
    requires Distinct(s)
    ensures |Elements(s)| == |s|
  {
    if s != [] {
      var rest, last := s[..|s| - 1], s[|s| - 1];
      ElementsCount(rest);
      assert s == rest + [last];
      assert Elements(s) == Elements(rest) + {last};
    }
  }

  lemma SortElements<T>(lt: (T, T) -> bool, s: seq<T>)
    ensures forall x :: x in Sort(lt, s) <==> x in s
  {
    assert forall x :: x in s <==> x in multiset(s);
    assert forall x :: x in Sort(lt, s) <==> x in multiset(Sort(lt, s));
  }

  /** A strictly ascending sequence is determined by the set of its elements. */
  lemma {:induction false} AscendingUnique<T(!new)>(lt: (T, T) -> bool, s: seq<T>, t: seq<T>)
    requires StrictOrder(lt) && StrictlyAscending(lt, s) && StrictlyAscending(lt, t)
    requires forall x :: x in s <==> x in t
    ensures s == t
  {
    assert s != [] ==> s[0] in t;
    assert t != [] ==> t[0] in s;
    if s != [] && t != [] {
      var i :| 0 <= i < |t| && t[i] == s[0];
      var j :| 0 <= j < |s| && s[j] == t[0];
      var a, b := s[0], t[0];
      assert i == 0 || lt(b, a);
      assert j == 0 || lt(a, b);
      assert !(lt(a, b) && lt(b, a));
      forall x | x in s[1..] ensures x in t[1..] {
        var k :| 0 <= k < |s[1..]| && s[1..][k] == x;
        assert s[k + 1] == x && lt(s[0], x) && x in t;
      }
      forall x | x in t[1..] ensures x in s[1..] {
        var k :| 0 <= k < |t[1..]| && t[1..][k] == x;
        assert t[k + 1] == x && lt(t[0], x) && x in s;
      }
      AscendingUnique(lt, s[1..], t[1..]);
      assert s == [s[0]] + s[1..] && t == [t[0]] + t[1..];
    }
  }

  // ---- sorted(set of strings) ----

  ghost predicate LeastOf(m: string, s: set<string>)
  {
    m in s && forall x :: x in s && x != m ==> Less(m, x)
  }

  lemma {:induction false} LeastExists(s: set<string>)
    requires s != {}
    ensures exists m :: LeastOf(m, s)
    decreases |s|
  {
    var x :| x in s;
    if s == {x} {
      assert LeastOf(x, s);
    } else {
      var rest := s - {x};
      assert s == rest + {x};
      LeastExists(rest);
      var m :| LeastOf(m, rest);
      LessTotal(m, x);
      if Less(m, x) {
        assert LeastOf(m, s);
      } else {
        forall y | y in s && y != x ensures Less(x, y) {
          if y != m { LessTransitive(x, m, y); }
        }
        assert LeastOf(x, s);
      }
    }
  }

  /** What Python's sorted() returns for a set of strings. */
  ghost function Sorted(s: set<string>): seq<string>
    decreases |s|
  {
    if s == {} then []
    else
      LeastExists(s);
      var m :| LeastOf(m, s);
      [m] + Sorted(s - {m})
  }

  lemma {:induction false} SortedContents(s: set<string>)
    ensures StrictlyAscending(Less, Sorted(s))
    ensures forall x :: x in Sorted(s) <==> x in s
    decreases |s|
  {
    if s != {} {
      LeastExists(s);
      var m :| LeastOf(m, s) && Sorted(s) == [m] + Sorted(s - {m});
      SortedContents(s - {m});
      var rest := Sorted(s - {m});
      forall j | 0 <= j < |rest| ensures Less(m, rest[j]) { assert rest[j] in rest; }
    }
  }

  /** Sorting a duplicate-free list of strings gives the sorted form of its set of elements. */
  lemma SortGivesSorted(s: seq<string>)
    requires Distinct(s)
    ensures Sort(Less, s) == Sorted(Elements(s))
  {
    StringsWeaklyOrdered();
    SortAscending(Less, s);
    SortElements(Less, s);
    var r := Sort(Less, s);
    DistinctByMultiset(s, r);
    forall i, j | 0 <= i < j < |r| ensures Less(r[i], r[j]) { LessTotal(r[i], r[j]); }
    SortedContents(Elements(s));
    AscendingUnique(Less, r, Sorted(Elements(s)));
  }

  /** Python's sorted() of a set of strings, listed in an arbitrary order first. */
  method SortSet(s: set<string>) returns (r: seq<string>)
    ensures r == Sorted(s)
  {
    var ids: seq<string>, todo := [], s;
    while todo != {}
      invariant todo <= s && Distinct(ids)
      invariant forall x :: x in ids <==> x in s - todo
      decreases todo
    {
      var i :| i in todo;
      assert i !in ids;
      ids := ids + [i];
      todo := todo - {i};
    }
    assert Elements(ids) == s;
    SortGivesSorted(ids);
    r := Sort(Less, ids);
  }

  lemma {:induction false} DistinctMultiplicity<T>(s: seq<T>)
    ensures Distinct(s) <==> forall x :: multiset(s)[x] <= 1
  {
    if s == [] {
    } else {
      var rest := s[1..];
      assert s == [s[0]] + rest;
      DistinctMultiplicity(rest);
      if s[0] in rest {
        assert multiset(s)[s[0]] > 1;
        var j :| 0 <= j < |rest| && rest[j] == s[0];
        assert s[j + 1] == s[0];
      } else if Distinct(rest) {
        forall i, j | 0 <= i < j < |s| ensures s[i] != s[j] {
          assert s[j] == rest[j - 1];
          assert i > 0 ==> s[i] == rest[i - 1];
        }
      } else {
        var x :| multiset(rest)[x] > 1;
        assert multiset(s)[x] > 1;
        var i, j :| 0 <= i < j < |rest| && rest[i] == rest[j];
        assert s[i + 1] == s[j + 1];
      }
    }
  }

  lemma DistinctByMultiset<T>(s: seq<T>, t: seq<T>)
    requires multiset(s) == multiset(t) && Distinct(s)
    ensures Distinct(t)
  {
    DistinctMultiplicity(s);
    DistinctMultiplicity(t);
  }
}
