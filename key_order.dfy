/**
 The key order of `sortKeys`: `Array.prototype.sort` without a comparator,
 which orders strings lexicographically by character code, and the record
 that `sortKeys` rebuilds in that order.
 */
module KeyOrder {
  import opened Values

  /** `a` sorts strictly before `b`: a proper prefix sorts first, otherwise
      the first differing character decides. */
  predicate Less(a: string, b: string)
    decreases |a|
  {
    if |a| == 0 then |b| > 0
    else if |b| == 0 then false
    else if a[0] != b[0] then a[0] < b[0]
    else Less(a[1..], b[1..])
  }

  lemma {:induction false} LessIrreflexive(a: string)
    ensures !Less(a, a)
    decreases |a|
  {
    if |a| > 0 {
      LessIrreflexive(a[1..]);
    }
  }

  lemma {:induction false} LessAsymmetric(a: string, b: string)
    requires Less(a, b)
    ensures !Less(b, a)
    decreases |a|
  {
    if |a| > 0 && |b| > 0 && a[0] == b[0] {
      LessAsymmetric(a[1..], b[1..]);
    }
  }

  lemma {:induction false} LessTransitive(a: string, b: string, c: string)
    requires Less(a, b) && Less(b, c)
    ensures Less(a, c)
    decreases |a|
  {
    if |a| > 0 && a[0] == b[0] && b[0] == c[0] {
      LessTransitive(a[1..], b[1..], c[1..]);
    }
  }

  /** Any two distinct strings are ordered one way or the other. */
  lemma {:induction false} LessTotal(a: string, b: string)
    ensures a == b || Less(a, b) || Less(b, a)
    decreases |a|
  {
    if |a| > 0 && |b| > 0 && a[0] == b[0] {
      LessTotal(a[1..], b[1..]);
      if a[1..] == b[1..] {
        assert a == [a[0]] + a[1..] && b == [b[0]] + b[1..];
      }
    }
  }

  /** `k` is the key of `s` that sorts first. */
  predicate IsLeast(k: string, s: set<string>)
  {
    k in s && forall j :: j in s && j != k ==> Less(k, j)
  }

  lemma {:induction false} LeastExists(s: set<string>)
    requires s != {}
    ensures exists k :: IsLeast(k, s)
    decreases s
  {
    var x :| x in s;
    if s == {x} {
      assert IsLeast(x, s);
    } else {
      LeastExists(s - {x});
      var m :| IsLeast(m, s - {x});
      LessTotal(x, m);
      if Less(x, m) {
        forall j | j in s && j != x
          ensures Less(x, j)
        {
          if j != m {
            LessTransitive(x, m, j);
          }
        }
        assert IsLeast(x, s);
      } else {
        assert IsLeast(m, s);
      }
    }
  }

  lemma LeastUnique(s: set<string>)
    ensures forall a, b :: IsLeast(a, s) && IsLeast(b, s) ==> a == b
  {
    forall a, b | IsLeast(a, s) && IsLeast(b, s)
      ensures a == b
    {
      if a != b {
        LessAsymmetric(a, b);
      }
    }
  }

  /** The key of a non-empty key set that sorts first. */
  function MinKey(s: set<string>): (k: string)
    requires s != {}
    ensures k in s
    ensures forall j :: j in s && j != k ==> Less(k, j)
  {
    LeastExists(s);
    LeastUnique(s);
    var k :| IsLeast(k, s);
    k
  }

  /** Keys strictly ascending, hence also pairwise distinct. */
  predicate Sorted(r: Record)
  {
    forall i, j :: 0 <= i < j < |r| ==> Less(r[i].0, r[j].0)
  }

  /** `sortKeys(unordered)`: a record with the same keys and the same value
      per key, enumerated in ascending key order. */
  function SortKeys(unordered: Params): (r: Record)
    ensures Sorted(r)
    ensures ToMap(r) == unordered
    ensures |r| == |unordered|
    decreases unordered.Keys
  {
    if unordered == map[] then []
    else
      var k := MinKey(unordered.Keys);
      var rest := SortKeys(unordered - {k});
      PrependLeast(unordered, k, rest);
      [(k, unordered[k])] + rest
  }

  /** Putting the least key in front of the sorted rest gives the sorted whole. */
  lemma PrependLeast(m: Params, k: string, rest: Record)
    requires k in m && forall j :: j in m && j != k ==> Less(k, j)
    requires Sorted(rest) && ToMap(rest) == m - {k} && |rest| == |m - {k}|
    ensures Sorted([(k, m[k])] + rest)
    ensures ToMap([(k, m[k])] + rest) == m
    ensures |[(k, m[k])] + rest| == |m|
  {
    PrependSorted(k, m[k], rest, m - {k});
    var r := [(k, m[k])] + rest;
    assert r[1..] == rest;
    assert ToMap(r) == map[k := m[k]] + ToMap(rest);
    assert map[k := m[k]] + (m - {k}) == m;
    assert (m - {k}).Keys == m.Keys - {k};
  }

  lemma PrependSorted(k: string, v: Value, rest: Record, others: Params)
    requires Sorted(rest) && ToMap(rest) == others
    requires forall j :: j in others ==> Less(k, j)
    ensures Sorted([(k, v)] + rest)
  {
    var r := [(k, v)] + rest;
    forall i, j | 0 <= i < j < |r|
      ensures Less(r[i].0, r[j].0)
    {
      assert r[j] == rest[j - 1];
      if i == 0 {
        assert rest[j - 1].0 in others;
      } else {
        assert r[i] == rest[i - 1];
      }
    }
  }

  /** The sorted record is the only sorted record that builds the same
      object: any sorted record that builds `m` is `SortKeys(m)`. */
  lemma {:induction false} SortKeysUnique(r: Record, m: Params)
    requires Sorted(r)
    requires ToMap(r) == m
    ensures r == SortKeys(m)
    decreases |r|
  {
    if r != [] {
      var k := MinKey(m.Keys);
      var i := ToMapIndex(r, k);
      if i != 0 {
        LessAsymmetric(r[0].0, r[i].0);
      }
      var tail := r[1..];
      assert forall j :: 0 <= j < |tail| ==> Less(k, tail[j].0);
      forall j | 0 <= j < |tail|
        ensures tail[j].0 != k
      {
        LessIrreflexive(k);
      }
      if k in ToMap(tail) {
        var j := ToMapIndex(tail, k);
        assert false;
      }
      assert ToMap(tail) == m - {k};
      SortKeysUnique(tail, m - {k});
    }
  }

  /** `{b: 2, a: 1}` is enumerated as `a` then `b`. */
  lemma SortKeysExample()
    ensures SortKeys(map["b" := Num(2.0), "a" := Num(1.0)]) == [("a", Num(1.0)), ("b", Num(2.0))]
  {
    var r: Record := [("a", Num(1.0)), ("b", Num(2.0))];
    assert Less("a", "b");
    assert ToMap(r) == map["b" := Num(2.0), "a" := Num(1.0)];
    SortKeysUnique(r, map["b" := Num(2.0), "a" := Num(1.0)]);
  }
}
