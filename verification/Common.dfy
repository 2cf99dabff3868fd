/** Vocabulary the other modules share: optional values, sums over finite maps, ordered listings. */
module Common {

  datatype Option<+T> = None | Some(value: T)

  function Min(a: int, b: int): int {
    if a < b then a else b
  }

  function Max(a: int, b: int): int {
    if a < b then b else a
  }

  /** The sum of `weight` over the entries of a finite map. */
  ghost function SumMap<K, V>(m: map<K, V>, weight: (K, V) -> int): int
    decreases m.Keys
  {
    if m == map[] then 0
    else
      var k :| k in m;
      weight(k, m[k]) + SumMap(m - {k}, weight)
  }

  /** The order in which a map is summed does not matter: any key can be taken out first. */
  lemma {:induction false} SumMapTake<K, V>(m: map<K, V>, weight: (K, V) -> int, k: K)
    requires k in m
    ensures SumMap(m, weight) == weight(k, m[k]) + SumMap(m - {k}, weight)
    decreases m.Keys
  {
    var j :| j in m && SumMap(m, weight) == weight(j, m[j]) + SumMap(m - {j}, weight);
    if j != k {
      SumMapTake(m - {j}, weight, k);
      SumMapTake(m - {k}, weight, j);
      assert (m - {j}) - {k} == (m - {k}) - {j};
    }
  }

  /** Writing one entry moves the sum by the difference of that entry's weights. */
  lemma SumMapUpdate<K, V>(m: map<K, V>, weight: (K, V) -> int, k: K, v: V)
    ensures SumMap(m[k := v], weight)
         == SumMap(m, weight) + weight(k, v) - (if k in m then weight(k, m[k]) else 0)
  {
    SumMapTake(m[k := v], weight, k);
    assert m[k := v] - {k} == m - {k};
    if k in m {
      SumMapTake(m, weight, k);
    } else {
      assert m - {k} == m;
    }
  }

  lemma {:induction false} SumMapNonNegative<K, V>(m: map<K, V>, weight: (K, V) -> int)
    requires forall k | k in m :: 0 <= weight(k, m[k])
    ensures 0 <= SumMap(m, weight)
    decreases m.Keys
  {
    if m != map[] {
      var k :| k in m && SumMap(m, weight) == weight(k, m[k]) + SumMap(m - {k}, weight);
      SumMapNonNegative(m - {k}, weight);
    }
  }

  lemma {:induction false} SumMapZero<K, V>(m: map<K, V>, weight: (K, V) -> int)
    requires forall k | k in m :: weight(k, m[k]) == 0
    ensures SumMap(m, weight) == 0
    decreases m.Keys
  {
    if m != map[] {
      var k :| k in m && SumMap(m, weight) == weight(k, m[k]) + SumMap(m - {k}, weight);
      SumMapZero(m - {k}, weight);
    }
  }

  ghost predicate Ascending(ids: seq<nat>) {
    forall i, j | 0 <= i < j < |ids| :: ids[i] < ids[j]
  }

  lemma {:induction false} HasLeast(s: set<nat>)
    requires s != {}
    ensures exists x :: x in s && forall y | y in s :: x <= y
  {
    var x :| x in s;
    if s - {x} == {} {
      assert s == {x};
    } else {
      HasLeast(s - {x});
      var z :| z in s - {x} && forall y | y in s - {x} :: z <= y;
      var least := if x < z then x else z;
      assert least in s && forall y | y in s :: least <= y by {
        forall y | y in s ensures least <= y {
          if y != x { assert y in s - {x}; }
        }
      }
    }
  }

  /** The ids of a set in ascending order: what `ORDER BY id` and `sorted(set(...))` give. */
  function SortedIds(s: set<nat>): (ids: seq<nat>)
    ensures Ascending(ids)
    ensures forall x :: x in ids <==> x in s
  {
    if s == {} then []
    else
      HasLeast(s);
      var x :| x in s && forall y | y in s :: x <= y;
      var rest := SortedIds(s - {x});
      assert forall y | y in rest :: x < y;
      [x] + rest
  }

  /** An ascending listing names each id once. */
  lemma {:induction false} AscendingCount(ids: seq<nat>, s: set<nat>)
    requires Ascending(ids) && forall x :: x in ids <==> x in s
    ensures |ids| == |s|
  {
    if ids == [] {
      assert s == {};
    } else {
      var last := ids[|ids| - 1];
      assert ids == ids[..|ids| - 1] + [last];
      AscendingCount(ids[..|ids| - 1], s - {last});
    }
  }

  /** There is always an id not in use. */
  lemma {:induction false} AboveAll(ids: set<nat>) returns (bound: nat)
    ensures forall id | id in ids :: id < bound
  {
    if ids == {} {
      bound := 0;
    } else {
      var x :| x in ids;
      bound := AboveAll(ids - {x});
      bound := if bound <= x then x + 1 else bound;
      assert forall id | id in ids :: id == x || id in ids - {x};
    }
  }
}
