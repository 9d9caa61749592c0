/**
 * Relational tables as maps from primary key to row, and the query shapes the
 * services use on them: `ORDER BY`, `COUNT(*) ... WHERE`, and `GROUP BY`
 * counts folded into an object.
 */
module Tables {

  /** A total preorder: the ordering a database collation or timestamp gives rows. */
  ghost predicate TotalPreorder<V(!new)>(le: (V, V) -> bool) {
    && (forall a, b :: le(a, b) || le(b, a))
    && (forall a, b, c :: le(a, b) && le(b, c) ==> le(a, c))
  }

  /** The row at key k comes no later than any other row of m. */
  ghost predicate IsFirst<K, V>(m: map<K, V>, k: K, le: (V, V) -> bool) {
    k in m && forall k' :: k' in m ==> le(m[k], m[k'])
  }

  lemma RemoveOne<K, V>(m: map<K, V>, k: K)
    requires k in m
    ensures (m - {k}).Keys == m.Keys - {k}
    ensures |m - {k}| == |m| - 1
  {
    assert (m - {k}).Keys == m.Keys - {k};
  }

  /** Every non-empty table has a first row under a total preorder. */
  lemma {:induction false} FirstExists<K, V(!new)>(m: map<K, V>, le: (V, V) -> bool)
    requires m != map[] && TotalPreorder(le)
    ensures exists k :: IsFirst(m, k, le)
    decreases |m|
  {
    var k0 :| k0 in m;
    var rest := m - {k0};
    RemoveOne(m, k0);
    if rest == map[] {
      assert forall k' :: k' in m ==> k' == k0;
      assert le(m[k0], m[k0]);
      assert IsFirst(m, k0, le);
    } else {
      FirstExists(rest, le);
      var k1 :| IsFirst(rest, k1, le);
      assert m[k1] == rest[k1];
      if le(m[k0], m[k1]) {
        forall k' | k' in m
          ensures le(m[k0], m[k'])
        {
          if k' == k0 {
            assert le(m[k0], m[k0]);
          } else {
            assert le(m[k1], rest[k']);
          }
        }
        assert IsFirst(m, k0, le);
      } else {
        forall k' | k' in m
          ensures le(m[k1], m[k'])
        {
          if k' != k0 {
            assert le(m[k1], rest[k']);
          }
        }
        assert IsFirst(m, k1, le);
      }
    }
  }

  /** A row that comes first, picked among the rows le ranks equal. */
  ghost function FirstKey<K, V(!new)>(m: map<K, V>, le: (V, V) -> bool): (k: K)
    requires m != map[] && TotalPreorder(le)
    ensures IsFirst(m, k, le)
  {
    FirstExists(m, le);
    var k :| IsFirst(m, k, le);
    k
  }

  /** r lists every key of m exactly once, in an order agreeing with le on the rows. */
  ghost predicate Lists<K, V>(m: map<K, V>, r: seq<K>, le: (V, V) -> bool) {
    && |r| == |m|
    && (forall i :: 0 <= i < |r| ==> r[i] in m)
    && (forall k :: k in m ==> k in r)
    && (forall i, j :: 0 <= i < j < |r| ==> r[i] != r[j])
    && (forall i, j :: 0 <= i < j < |r| ==> le(m[r[i]], m[r[j]]))
  }

  lemma ConsFirst<K, V>(m: map<K, V>, k: K, rest: seq<K>, le: (V, V) -> bool)
    requires IsFirst(m, k, le) && Lists(m - {k}, rest, le)
    ensures Lists(m, [k] + rest, le)
  {
    RemoveOne(m, k);
    ConsFirstOrdered(m, k, rest, le);
    var r := [k] + rest;
    forall k' | k' in m
      ensures k' in r
    {
      if k' != k {
        assert k' in m - {k};
      }
    }
  }

  /** The first row followed by a listing of the others is a listing without repeats, in le order. */
  lemma ConsFirstOrdered<K, V>(m: map<K, V>, k: K, rest: seq<K>, le: (V, V) -> bool)
    requires IsFirst(m, k, le) && Lists(m - {k}, rest, le)
    ensures forall i :: 0 <= i < |[k] + rest| ==> ([k] + rest)[i] in m
    ensures forall i, j :: 0 <= i < j < |[k] + rest| ==> ([k] + rest)[i] != ([k] + rest)[j]
    ensures forall i, j :: 0 <= i < j < |[k] + rest| ==> le(m[([k] + rest)[i]], m[([k] + rest)[j]])
  {
    var r := [k] + rest;
    var m' := m - {k};
    forall i | 0 < i < |r|
      ensures r[i] == rest[i - 1] && r[i] in m && r[i] != k && m[r[i]] == m'[r[i]]
    {
      assert rest[i - 1] in m';
    }
    forall i, j | 0 <= i < j < |r|
      ensures r[i] != r[j] && le(m[r[i]], m[r[j]])
    {
      if 0 < i {
        assert rest[i - 1] != rest[j - 1] && le(m'[rest[i - 1]], m'[rest[j - 1]]);
      }
    }
  }

  /**
   * `SELECT id ... ORDER BY`: every key of the table once, the rows in the
   * order le gives. Rows that le ranks equal may come in any order, as in SQL.
   */
  ghost function OrderBy<K, V(!new)>(m: map<K, V>, le: (V, V) -> bool): (r: seq<K>)
    requires TotalPreorder(le)
    ensures Lists(m, r, le)
    decreases |m|
  {
    if m == map[] then []
    else
      var k := FirstKey(m, le);
      RemoveOne(m, k);
      var rest := OrderBy(m - {k}, le);
      ConsFirst(m, k, rest, le);
      [k] + rest
  }

  /** `WHERE p`: the rows that satisfy p, keyed as before. */
  function Where<K(!new), V>(m: map<K, V>, p: V -> bool): (r: map<K, V>)
    ensures forall k :: k in r <==> k in m && p(m[k])
    ensures forall k :: k in r ==> r[k] == m[k]
  {
    map k | k in m && p(m[k]) :: m[k]
  }

  /** The keys of the rows that satisfy p. */
  function KeysWhere<K(!new), V>(m: map<K, V>, p: V -> bool): (ks: set<K>)
    ensures forall k :: k in ks <==> k in m && p(m[k])
    ensures ks <= m.Keys
  {
    set k | k in m && p(m[k])
  }

  /** `SELECT COUNT(*) ... WHERE p`. */
  function CountWhere<K(!new), V>(m: map<K, V>, p: V -> bool): (n: nat)
    ensures n == |KeysWhere(m, p)|
    ensures n <= |m|
  {
    var ks := KeysWhere(m, p);
    SubsetCard(ks, m.Keys);
    |ks|
  }

  lemma {:induction false} SubsetCard<K>(a: set<K>, b: set<K>)
    requires a <= b
    ensures |a| <= |b|
    decreases |b|
  {
    if a != {} {
      var x :| x in a;
      SubsetCard(a - {x}, b - {x});
    }
  }

  /** The distinct values of field f among the rows: the groups of `GROUP BY f`. */
  function Groups<K, V, G(==, !new)>(m: map<K, V>, f: V -> G): (gs: set<G>)
    ensures forall g :: g in gs <==> exists k :: k in m && f(m[k]) == g
  {
    set k | k in m :: f(m[k])
  }

  /** `SELECT f, COUNT(*) ... GROUP BY f`, as a map from group to row count. */
  function GroupCounts<K, V, G(==, !new)>(m: map<K, V>, f: V -> G): (c: map<G, nat>)
    ensures c.Keys == Groups(m, f)
    ensures forall g :: g in c ==> c[g] == |set k | k in m && f(m[k]) == g| && c[g] > 0
  {
    map g | g in Groups(m, f) :: GroupCount(m, f, g)
  }

  function GroupCount<K, V, G(==, !new)>(m: map<K, V>, f: V -> G, g: G): (n: nat)
    requires g in Groups(m, f)
    ensures n == |set k | k in m && f(m[k]) == g| && n > 0
  {
    GroupNonEmpty(m, f, g);
    |set k | k in m && f(m[k]) == g|
  }

  lemma GroupNonEmpty<K, V, G(!new)>(m: map<K, V>, f: V -> G, g: G)
    requires g in Groups(m, f)
    ensures |set k | k in m && f(m[k]) == g| > 0
  {
    var k0 :| k0 in m && f(m[k0]) == g;
    var ks := set k | k in m && f(m[k]) == g;
    assert k0 in ks;
    assert ks != {};
  }

  /** The sum of the values of a map (a JavaScript object's `Object.values`). */
  ghost function SumValues<G>(c: map<G, nat>): nat
    decreases |c|
  {
    if c == map[] then 0
    else
      var g :| g in c;
      RemoveOne(c, g);
      c[g] + SumValues(c - {g})
  }

  /** The keys of m whose group lies in gs. */
  ghost function KeysIn<K, V, G>(m: map<K, V>, f: V -> G, gs: set<G>): set<K> {
    set k | k in m && f(m[k]) in gs
  }

  lemma {:induction false} PartitionSum<K, V, G>(m: map<K, V>, f: V -> G, c: map<G, nat>)
    requires forall g :: g in c ==> c[g] == |set k | k in m && f(m[k]) == g|
    ensures SumValues(c) == |KeysIn(m, f, c.Keys)|
    decreases |c|
  {
    if c == map[] {
      assert KeysIn(m, f, c.Keys) == {};
    } else {
      var g :| g in c && SumValues(c) == c[g] + SumValues(c - {g});
      var rest := c - {g};
      RemoveOne(c, g);
      PartitionSum(m, f, rest);
      var here := set k | k in m && f(m[k]) == g;
      assert KeysIn(m, f, c.Keys) == here + KeysIn(m, f, rest.Keys);
      assert here * KeysIn(m, f, rest.Keys) == {};
    }
  }

  /** The group counts of a table add up to the number of its rows. */
  lemma GroupCountsSum<K, V, G(!new)>(m: map<K, V>, f: V -> G)
    ensures SumValues(GroupCounts(m, f)) == |m|
  {
    var c := GroupCounts(m, f);
    forall g | g in c
      ensures c[g] == |set k | k in m && f(m[k]) == g|
    {
    }
    PartitionSum(m, f, c);
    assert KeysIn(m, f, c.Keys) == m.Keys;
  }
}
