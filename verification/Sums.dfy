// SUM over a finite set of rows. A query result column is a map from row key
// to value, so that two queries that select the same rows are equal as maps.
module Sums {
  ghost function Total<K(!new)>(m: map<K, real>): real
    decreases |m|
  {
    if m == map[] then 0.0
    else
      var k :| k in m;
      assert |m - {k}| < |m| by { Shrinks(m, k); }
      m[k] + Total(m - {k})
  }

  lemma Shrinks<K, V>(m: map<K, V>, k: K)
    requires k in m
    ensures |m - {k}| == |m| - 1
  {
    assert (m - {k}).Keys == m.Keys - {k};
  }

  // The value does not depend on which row is taken first.
  lemma {:induction false} TotalRemove<K(!new)>(m: map<K, real>, k: K)
    requires k in m
    ensures Total(m) == m[k] + Total(m - {k})
    decreases |m|
  {
    var first :| first in m && Total(m) == m[first] + Total(m - {first});
    if first != k {
      Shrinks(m, first);
      Shrinks(m, k);
      TotalRemove(m - {first}, k);
      TotalRemove(m - {k}, first);
      assert m - {first} - {k} == m - {k} - {first};
    }
  }

  lemma TotalInsert<K(!new)>(m: map<K, real>, k: K, v: real)
    requires k !in m
    ensures Total(m[k := v]) == Total(m) + v
  {
    TotalRemove(m[k := v], k);
    assert m[k := v] - {k} == m;
  }

  // Rows split into two disjoint groups.
  lemma {:induction false} TotalUnion<K(!new)>(a: map<K, real>, b: map<K, real>)
    requires forall k :: k in a ==> k !in b
    ensures Total(a + b) == Total(a) + Total(b)
    decreases |b|
  {
    if b == map[] {
      assert a + b == a;
    } else {
      var k :| k in b;
      Shrinks(b, k);
      TotalUnion(a, b - {k});
      TotalRemove(b, k);
      TotalRemove(a + b, k);
      PickFromUnion(a, b, k);
    }
  }

  lemma PickFromUnion<K, V>(a: map<K, V>, b: map<K, V>, k: K)
    requires k in b && k !in a
    ensures (a + b) - {k} == a + (b - {k})
  {
    var left, right := (a + b) - {k}, a + (b - {k});
    assert forall j :: j in left <==> j in right;
    assert forall j :: j in left ==> left[j] == right[j];
  }

  // The rows of m whose group is l.
  ghost function Fiber<K(!new), L(!new)>(m: map<K, real>, group: map<K, L>, l: L): map<K, real> {
    map k | k in m && k in group && group[k] == l :: m[k]
  }

  // SELECT group, SUM(value) ... GROUP BY group.
  ghost function GroupSums<K(!new), L(!new)>(m: map<K, real>, group: map<K, L>, groups: set<L>): map<L, real> {
    map l | l in groups :: Total(Fiber(m, group, l))
  }

  ghost function Outside<K(!new), L(!new)>(m: map<K, real>, group: map<K, L>, l: L): map<K, real> {
    map k | k in m && !(k in group && group[k] == l) :: m[k]
  }

  lemma GroupSumsWithout<K(!new), L(!new)>(m: map<K, real>, group: map<K, L>, groups: set<L>, l: L)
    ensures GroupSums(m, group, groups) - {l} == GroupSums(Outside(m, group, l), group, groups - {l})
  {
    forall l' | l' in groups - {l}
      ensures Total(Fiber(Outside(m, group, l), group, l')) == Total(Fiber(m, group, l'))
    {
      assert Fiber(Outside(m, group, l), group, l') == Fiber(m, group, l');
    }
  }

  lemma SplitByGroup<K(!new), L(!new)>(m: map<K, real>, group: map<K, L>, l: L)
    ensures Outside(m, group, l) + Fiber(m, group, l) == m
  {
    var whole := Outside(m, group, l) + Fiber(m, group, l);
    assert forall k :: k in whole <==> k in m;
  }

  // The SUM of the per-group SUMs is the SUM of all rows.
  lemma {:induction false} TotalOfGroups<K(!new), L(!new)>(m: map<K, real>, group: map<K, L>, groups: set<L>)
    requires forall k :: k in m ==> k in group && group[k] in groups
    ensures Total(GroupSums(m, group, groups)) == Total(m)
    decreases |groups|
  {
    if groups == {} {
      assert forall k :: k !in m;
      assert m == map[];
      assert GroupSums(m, group, groups) == map[];
    } else {
      var l :| l in groups;
      var rest := Outside(m, group, l);
      TotalOfGroups(rest, group, groups - {l});
      GroupSumsWithout(m, group, groups, l);
      TotalRemove(GroupSums(m, group, groups), l);
      TotalUnion(rest, Fiber(m, group, l));
      SplitByGroup(m, group, l);
    }
  }

  lemma TotalByGroup<K(!new), L(!new)>(m: map<K, real>, group: map<K, L>, sums: map<L, real>)
    requires forall k :: k in m ==> k in group && group[k] in sums
    requires forall l :: l in sums ==> sums[l] == Total(Fiber(m, group, l))
    ensures Total(sums) == Total(m)
  {
    hide Total;
    TotalOfGroups(m, group, sums.Keys);
    assert sums == GroupSums(m, group, sums.Keys);
  }

  lemma {:induction false} TotalOfZeros<K(!new)>(m: map<K, real>)
    requires forall k :: k in m ==> m[k] >= 0.0
    ensures Total(m) >= 0.0
    ensures Total(m) == 0.0 <==> forall k :: k in m ==> m[k] == 0.0
    decreases |m|
  {
    if m != map[] {
      var k :| k in m;
      Shrinks(m, k);
      TotalRemove(m, k);
      TotalOfZeros(m - {k});
      assert forall j :: j in m ==> j == k || j in m - {k};
      assert forall j :: j in m - {k} ==> m[j] == (m - {k})[j];
    }
  }

  // A filter that keeps fewer non-negative rows cannot raise the SUM.
  lemma TotalSubset<K(!new)>(a: map<K, real>, b: map<K, real>)
    requires forall k :: k in a ==> k in b && a[k] == b[k]
    requires forall k :: k in b ==> b[k] >= 0.0
    ensures Total(a) <= Total(b)
  {
    var rest := map k | k in b && k !in a :: b[k];
    assert a + rest == b;
    TotalUnion(a, rest);
    TotalOfZeros(rest);
  }

  // SQLite's scan behind a SUM aggregate: one row at a time, in any order.
  method SumRows<K(!new)>(m: map<K, real>) returns (sum: real)
    ensures sum == Total(m)
  {
    sum := 0.0;
    var rest := m;
    assert m - {} == m;
    while rest != map[]
      invariant Total(m) == sum + Total(rest)
      decreases |rest|
    {
      var k :| k in rest;
      Shrinks(rest, k);
      TotalRemove(rest, k);
      sum := sum + rest[k];
      rest := rest - {k};
    }
  }
}
