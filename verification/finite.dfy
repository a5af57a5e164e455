/** Counting over finite maps and sets: the arithmetic every aggregate of the pipeline rests on. */
module Finite {

  /** The sum of all values of a map. */
  ghost function SumMap<K>(m: map<K, int>): int
  {
    if m == map[] then 0 else
      var k :| k in m;
      m[k] + SumMap(m - {k})
  }

  /** Any key may be taken out first. */
  lemma {:induction false} SumRemove<K>(m: map<K, int>, k: K)
    requires k in m
    ensures SumMap(m) == m[k] + SumMap(m - {k})
    decreases |m|
  {
    var j :| j in m && SumMap(m) == m[j] + SumMap(m - {j});
    if j != k {
      SumRemove(m - {j}, k);
      SumRemove(m - {k}, j);
      assert m - {j} - {k} == m - {k} - {j};
    }
  }

  /** Changing one summand changes the sum by the difference; an absent summand counts as zero. */
  lemma SumUpdate<K>(m: map<K, int>, k: K, v: int)
    ensures SumMap(m[k := v]) == SumMap(m) - (if k in m then m[k] else 0) + v
  {
    var m' := m[k := v];
    SumRemove(m', k);
    assert m' - {k} == m - {k};
    if k in m {
      SumRemove(m, k);
    } else {
      assert m - {k} == m;
    }
  }

  /** Removing some of a map's keys removes that many entries. */
  lemma PartSize<K, V>(m: map<K, V>, s: set<K>)
    requires s <= m.Keys
    ensures |m| == |s| + |m - s|
  {
    assert (m - s).Keys == m.Keys - s;
    assert m.Keys == s + (m.Keys - s);
    assert |m| == |m.Keys|;
    assert |m - s| == |(m - s).Keys|;
  }

  /** Renaming the keys one to one leaves the sum alone. */
  lemma {:induction false} SumRenamed<K, J>(m: map<K, int>, n: map<J, int>, name: map<K, J>)
    requires m.Keys == name.Keys && n.Keys == name.Values
    requires forall k :: k in m ==> n[name[k]] == m[k]
    requires forall k, k' :: k in m && k' in m && name[k] == name[k'] ==> k == k'
    ensures SumMap(m) == SumMap(n)
    decreases |m|
  {
    if m == map[] {
      assert n.Keys == {};
      assert n == map[];
    } else {
      var k :| k in m;
      var j := name[k];
      SumRemove(m, k);
      SumRemove(n, j);
      var name' := name - {k};
      forall j' | j' in n && j' != j
        ensures j' in name'.Values
      {
        var k' :| k' in name && name[k'] == j';
        assert k' in name' && name'[k'] == j';
      }
      assert (n - {j}).Keys == name'.Values;
      SumRenamed(m - {k}, n - {j}, name');
    }
  }

  /** The members of group k. */
  function Fiber<I, K(==)>(group: map<I, K>, k: K): set<I>
  {
    set i | i in group && group[i] == k
  }

  lemma FiberOfRest<I, K>(group: map<I, K>, k: K, k': K)
    requires k != k'
    ensures Fiber(group - Fiber(group, k), k') == Fiber(group, k')
  {
  }

  /** Counting group by group counts every row exactly once. */
  lemma {:induction false} CountByKey<I, K>(group: map<I, K>, counts: map<K, int>)
    requires forall i :: i in group ==> group[i] in counts
    requires forall k :: k in counts ==> counts[k] == |Fiber(group, k)|
    ensures SumMap(counts) == |group|
    decreases |counts|
  {
    if counts == map[] {
      assert group == map[];
    } else {
      var k :| k in counts;
      var here := Fiber(group, k);
      var rest := group - here;
      SumRemove(counts, k);
      PartSize(group, here);
      var counts' := counts - {k};
      forall k' | k' in counts'
        ensures counts'[k'] == |Fiber(rest, k')|
      {
        FiberOfRest(group, k, k');
      }
      CountByKey(rest, counts');
    }
  }

  /** Values that all differ need at least as many places. */
  lemma {:induction false} Pigeonhole<A, B>(m: map<A, B>, places: set<B>)
    requires forall a :: a in m ==> m[a] in places
    requires forall a, b :: a in m && b in m && m[a] == m[b] ==> a == b
    ensures |m| <= |places|
    decreases |m|
  {
    if m != map[] {
      var a :| a in m;
      Pigeonhole(m - {a}, places - {m[a]});
    }
  }

  /** One-to-one values are as many as the keys. */
  lemma {:induction false} ImageSize<A, B>(m: map<A, B>)
    requires forall a, b :: a in m && b in m && m[a] == m[b] ==> a == b
    ensures |m.Values| == |m|
    decreases |m|
  {
    if m != map[] {
      var a :| a in m;
      var rest := m - {a};
      ImageSize(rest);
      forall v | v in m.Values && v != m[a]
        ensures v in rest.Values
      {
        var b :| b in m && m[b] == v;
        assert b in rest && rest[b] == v;
      }
      assert m.Values == rest.Values + {m[a]};
    }
  }

  lemma {:induction false} SumZero<K>(m: map<K, int>)
    requires forall k :: k in m ==> m[k] == 0
    ensures SumMap(m) == 0
    decreases |m|
  {
    if m != map[] {
      var k :| k in m;
      SumRemove(m, k);
      SumZero(m - {k});
    }
  }

  /** Absent summands may be filled in as zeros. */
  lemma {:induction false} SumPadded<K>(m: map<K, int>, n: map<K, int>)
    requires m.Keys <= n.Keys
    requires forall k :: k in n ==> n[k] == if k in m then m[k] else 0
    ensures SumMap(m) == SumMap(n)
    decreases |n|
  {
    if n == map[] {
      assert m == map[];
    } else {
      var k :| k in n;
      SumRemove(n, k);
      if k in m {
        SumRemove(m, k);
        SumPadded(m - {k}, n - {k});
      } else {
        SumPadded(m, n - {k});
      }
    }
  }

  /** A sum of no smaller summands is no smaller, and larger if one is. */
  lemma {:induction false} SumAtLeast<K>(m: map<K, int>, n: map<K, int>)
    requires m.Keys == n.Keys && forall k :: k in n ==> m[k] >= n[k]
    ensures SumMap(m) >= SumMap(n)
    ensures (exists k :: k in n && m[k] > n[k]) ==> SumMap(m) > SumMap(n)
    decreases |n|
  {
    if n == map[] {
      assert m == map[];
    } else {
      var k :| k in n;
      SumRemove(m, k);
      SumRemove(n, k);
      SumAtLeast(m - {k}, n - {k});
      if j :| j in n && m[j] > n[j] && j != k {
        assert j in n - {k} && (m - {k})[j] > (n - {k})[j];
      }
    }
  }

  lemma {:induction false} SumNatural<K>(m: map<K, int>)
    requires forall k :: k in m ==> m[k] >= 0
    ensures SumMap(m) >= 0
    decreases |m|
  {
    if m != map[] {
      var k :| k in m;
      SumRemove(m, k);
      SumNatural(m - {k});
    }
  }

  /** Inclusion bounds size. */
  lemma SubsetSize<A>(s: set<A>, t: set<A>)
    requires s <= t
    ensures |s| <= |t|
    ensures |s| == |t| ==> s == t
  {
    assert t == s + (t - s);
  }

  /** The integers of a half-open interval. */
  ghost function Interval(lo: int, hi: int): (s: set<int>)
    ensures forall x :: x in s <==> lo <= x < hi
    ensures |s| == if lo <= hi then hi - lo else 0
    decreases hi - lo
  {
    if lo >= hi then {} else Interval(lo, hi - 1) + {hi - 1}
  }
}
