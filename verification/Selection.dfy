/**
 Bounded selection: the best few of a set, kept in an unordered buffer while
 the set is visited in any order, then sorted.
 */
module Selection {

  ghost function Elements<T>(items: seq<T>): set<T> {
    set x | x in items
  }

  ghost predicate NoDuplicates<T>(items: seq<T>) {
    forall i, j :: 0 <= i < j < |items| ==> items[i] != items[j]
  }

  /** `items` are the `limit` elements of least rank, or all when there are fewer. */
  ghost predicate Best<T(!new)>(all: set<T>, limit: nat, rank: T -> int, items: seq<T>) {
    && Elements(items) <= all && NoDuplicates(items)
    && |items| == (if |all| < limit then |all| else limit)
    && forall x, y :: x in all && x !in items && y in items ==> rank(y) < rank(x)
  }

  predicate Ascending<T>(items: seq<T>, rank: T -> int) {
    forall i, j :: 0 <= i < j < |items| ==> rank(items[i]) < rank(items[j])
  }

  /** Ranks tell the elements apart. */
  ghost predicate Ranked<T(!new)>(all: set<T>, rank: T -> int) {
    forall x, y :: x in all && y in all && rank(x) == rank(y) ==> x == y
  }

  lemma {:induction false} CountElements<T>(items: seq<T>)
    requires NoDuplicates(items)
    ensures |Elements(items)| == |items|
  {
    if |items| > 0 {
      var k := |items| - 1;
      CountElements(items[..k]);
      assert Elements(items) == Elements(items[..k]) + {items[k]};
      forall i | 0 <= i < k ensures items[..k][i] != items[k] { assert items[i] != items[k]; }
    }
  }

  // ------------------------------------------------------------ one more element

  /** The position of the element of greatest rank. */
  method Worst<T>(items: seq<T>, rank: T -> int) returns (w: nat)
    requires |items| > 0
    ensures w < |items| && forall i :: 0 <= i < |items| ==> rank(items[i]) <= rank(items[w])
  {
    w := 0;
    for i := 1 to |items|
      invariant w < i && forall j :: 0 <= j < i ==> rank(items[j]) <= rank(items[w])
    {
      if rank(items[i]) > rank(items[w]) { w := i; }
    }
  }

  /** Visit one more element: append it, or let it displace the worst one kept. */
  method Visit<T(!new)>(items: seq<T>, e: T, limit: nat, rank: T -> int, ghost all: set<T>) returns (kept: seq<T>)
    requires limit > 0 && Best(all, limit, rank, items) && e !in all && Ranked(all + {e}, rank)
    ensures Best(all + {e}, limit, rank, kept)
  {
    FullBuffer(all, limit, rank, items);
    if |items| < limit {
      AppendBest(all, limit, rank, items, e);
      return items + [e];
    }
    var w := Worst(items, rank);
    assert items[w] in Elements(items);
    if rank(e) < rank(items[w]) {
      ReplaceBest(all, limit, rank, items, e, w);
      return items[w := e];
    }
    KeepBest(all, limit, rank, items, e, w);
    kept := items;
  }

  /** A buffer that is not full holds everything. */
  lemma FullBuffer<T(!new)>(all: set<T>, limit: nat, rank: T -> int, items: seq<T>)
    requires Best(all, limit, rank, items)
    ensures |items| < limit ==> Elements(items) == all
  {
    CountElements(items);
    if |items| < limit { SameSize(Elements(items), all); }
  }

  lemma SameSize<T>(a: set<T>, b: set<T>)
    requires a <= b && |a| == |b|
    ensures a == b
  {
    assert b == a + (b - a) && |b| == |a| + |b - a|;
  }

  lemma AppendBest<T(!new)>(all: set<T>, limit: nat, rank: T -> int, items: seq<T>, e: T)
    requires |items| < limit && Best(all, limit, rank, items) && Elements(items) == all && e !in all
    ensures Best(all + {e}, limit, rank, items + [e])
  {
    CountElements(items);
    assert Elements(items + [e]) == all + {e};
    forall i | 0 <= i < |items| ensures items[i] != e { assert items[i] in Elements(items); }
  }

  lemma ReplaceBest<T(!new)>(all: set<T>, limit: nat, rank: T -> int, items: seq<T>, e: T, w: nat)
    requires |items| == limit && Best(all, limit, rank, items) && e !in all && w < |items| && Ranked(all + {e}, rank)
    requires rank(e) < rank(items[w]) && forall i :: 0 <= i < |items| ==> rank(items[i]) <= rank(items[w])
    ensures Best(all + {e}, limit, rank, items[w := e])
  {
    var kept := items[w := e];
    assert forall i :: 0 <= i < |items| ==> items[i] in Elements(items) && items[i] != e;
    forall x | x in kept ensures x == e || (x in items && x != items[w]) {
      var i :| 0 <= i < |kept| && kept[i] == x;
      if i != w { assert items[i] == x; }
    }
    forall i | 0 <= i < |items| && i != w ensures items[i] in kept { assert kept[i] == items[i]; }
    forall x, y | x in all + {e} && x !in kept && y in kept ensures rank(y) < rank(x) {
      if x in items {
        var i :| 0 <= i < |items| && items[i] == x;
        assert i == w;
        if y != e {
          var j :| 0 <= j < |items| && items[j] == y;
          assert rank(y) <= rank(items[w]) && rank(y) != rank(items[w]);
        }
      } else {
        assert kept[w] == e && items[w] in items;
        assert x in all && rank(items[w]) < rank(x);
      }
    }
  }

  lemma KeepBest<T(!new)>(all: set<T>, limit: nat, rank: T -> int, items: seq<T>, e: T, w: nat)
    requires |items| == limit && Best(all, limit, rank, items) && e !in all && w < |items| && Ranked(all + {e}, rank)
    requires rank(e) >= rank(items[w]) && forall i :: 0 <= i < |items| ==> rank(items[i]) <= rank(items[w])
    ensures Best(all + {e}, limit, rank, items)
  {
    assert items[w] in Elements(items);
    forall x, y | x in all + {e} && x !in items && y in items ensures rank(y) < rank(x) {
      var j :| 0 <= j < |items| && items[j] == y;
      assert y in Elements(items);
    }
  }

  // ----------------------------------------------------------------- sorting

  /** `sort.Slice` by rank */
  method SortByRank<T(!new)>(items: seq<T>, rank: T -> int) returns (sorted: seq<T>)
    requires Ranked(Elements(items), rank) && NoDuplicates(items)
    ensures Ascending(sorted, rank) && Elements(sorted) == Elements(items) && |sorted| == |items|
  {
    sorted := [];
    for n := 0 to |items|
      invariant Ascending(sorted, rank) && Elements(sorted) == Elements(items[..n]) && |sorted| == n
    {
      var e, p := items[n], 0;
      assert e in Elements(items);
      while p < |sorted| && rank(sorted[p]) < rank(e)
        invariant p <= |sorted| && forall i :: 0 <= i < p ==> rank(sorted[i]) < rank(e)
      {
        p := p + 1;
      }
      Placed(sorted, e, p, rank, items[..n], items);
      assert items[..n + 1] == items[..n] + [e];
      sorted := sorted[..p] + [e] + sorted[p..];
    }
    assert items[..|items|] == items;
  }

  lemma Placed<T(!new)>(sorted: seq<T>, e: T, p: nat, rank: T -> int, done: seq<T>, items: seq<T>)
    requires Ascending(sorted, rank) && Elements(sorted) == Elements(done) && p <= |sorted|
    requires (forall i :: 0 <= i < p ==> rank(sorted[i]) < rank(e)) && (p < |sorted| ==> rank(e) <= rank(sorted[p]))
    requires Ranked(Elements(items), rank) && Elements(done) <= Elements(items) && e in items && e !in done
    ensures Ascending(sorted[..p] + [e] + sorted[p..], rank)
    ensures Elements(sorted[..p] + [e] + sorted[p..]) == Elements(done + [e])
  {
    forall i | p <= i < |sorted| ensures rank(e) < rank(sorted[i]) {
      assert sorted[i] in Elements(sorted) && sorted[i] in Elements(items);
      assert sorted[i] != e && rank(sorted[i]) != rank(e);
    }
    var r := sorted[..p] + [e] + sorted[p..];
    assert sorted == sorted[..p] + sorted[p..];
    assert Elements(r) == Elements(sorted) + {e};
    assert Elements(done + [e]) == Elements(done) + {e};
  }

  // -------------------------------------------------------------- uniqueness

  /** The best elements do not depend on the order of the visit. */
  lemma BestUnique<T(!new)>(all: set<T>, limit: nat, rank: T -> int, a: seq<T>, b: seq<T>)
    requires Best(all, limit, rank, a) && Best(all, limit, rank, b) && Ascending(a, rank) && Ascending(b, rank)
    ensures a == b
  {
    CountElements(a);
    CountElements(b);
    OneIsEmpty(Elements(a) - Elements(b), Elements(b) - Elements(a), rank);
    if Elements(a) <= Elements(b) { SameSize(Elements(a), Elements(b)); } else { SameSize(Elements(b), Elements(a)); }
    SortedUnique(a, b, rank);
  }

  lemma OneIsEmpty<T(!new)>(a: set<T>, b: set<T>, rank: T -> int)
    requires forall x, y :: x in a && y in b ==> rank(x) < rank(y) < rank(x)
    ensures a == {} || b == {}
  {
    if a != {} && b != {} {
      var x, y :| x in a && y in b;
      assert false;
    }
  }

  lemma {:induction false} SortedUnique<T(!new)>(a: seq<T>, b: seq<T>, rank: T -> int)
    requires Ascending(a, rank) && Ascending(b, rank) && Elements(a) == Elements(b) && |a| == |b|
    ensures a == b
  {
    if |a| > 0 {
      var k := |a| - 1;
      assert a[k] in Elements(a) && b[k] in Elements(b);
      LastIsGreatest(a, b[k], rank);
      LastIsGreatest(b, a[k], rank);
      var i :| 0 <= i < |b| && b[i] == a[k];
      assert i >= k;
      forall x ensures x in Elements(a[..k]) <==> x in Elements(b[..k]) {
        InitElements(a, x, rank);
        InitElements(b, x, rank);
      }
      SortedUnique(a[..k], b[..k], rank);
    }
  }

  lemma LastIsGreatest<T>(a: seq<T>, x: T, rank: T -> int)
    requires Ascending(a, rank) && |a| > 0 && x in a
    ensures rank(x) <= rank(a[|a| - 1])
  {
    var i :| 0 <= i < |a| && a[i] == x;
  }

  lemma InitElements<T>(a: seq<T>, x: T, rank: T -> int)
    requires Ascending(a, rank) && |a| > 0
    ensures x in Elements(a[..|a| - 1]) <==> x in Elements(a) && x != a[|a| - 1]
  {
    var k := |a| - 1;
    if x in a && x != a[k] {
      var i :| 0 <= i < |a| && a[i] == x;
      assert a[..k][i] == x;
    }
    if x in a[..k] {
      var i :| 0 <= i < k && a[..k][i] == x;
      assert rank(a[i]) < rank(a[k]);
    }
  }
}
