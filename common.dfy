/** Shared vocabulary: an Option type for JavaScript's `undefined`/`null`,
    and sums over the integer-valued dictionaries the reducers build. */
module Common {

  /** A JavaScript value that may be `undefined` or `null` (None). */
  datatype Option<+T> = None | Some(value: T) {
    function GetOr(default: T): T {
      match this
      case Some(v) => v
      case None => default
    }
  }

  /** `Array.prototype.map((x, index) => ...)`. */
  function MapWithIndex<A, B>(xs: seq<A>, f: (A, nat) -> B): (r: seq<B>)
    ensures |r| == |xs|
  {
    if xs == [] then []
    else MapWithIndex(xs[..|xs| - 1], f) + [f(xs[|xs| - 1], |xs| - 1)]
  }

  /** The `i`-th result is the callback applied to the `i`-th element and `i`. */
  lemma {:induction false} MapWithIndexAt<A, B>(xs: seq<A>, f: (A, nat) -> B, i: nat)
    requires i < |xs|
    ensures MapWithIndex(xs, f)[i] == f(xs[i], i)
  {
    if i < |xs| - 1 {
      MapWithIndexAt(xs[..|xs| - 1], f, i);
    }
  }

  /** The sum of all values of a dictionary. */
  ghost function MapSum<K>(m: map<K, int>): int
    decreases |m|
  {
    if |m| == 0 then 0
    else
      var k :| k in m;
      m[k] + MapSum(m - {k})
  }

  /** Unfolding the definition once: some key was taken out first. */
  lemma MapSumUnfold<K>(m: map<K, int>) returns (j: K)
    requires |m| != 0
    ensures j in m && MapSum(m) == m[j] + MapSum(m - {j})
  {
    j :| j in m && MapSum(m) == m[j] + MapSum(m - {j});
  }

  /** Any key may be taken out first: the sum does not depend on the choice. */
  lemma {:induction false} MapSumRemove<K>(m: map<K, int>, k: K)
    requires k in m
    ensures MapSum(m) == m[k] + MapSum(m - {k})
    decreases |m|
  {
    assert m.Keys != {};
    var j := MapSumUnfold(m);
    if j != k {
      MapSumSwap(m, j, k);
    }
  }

  lemma {:induction false} MapSumSwap<K>(m: map<K, int>, j: K, k: K)
    requires j in m && k in m && j != k
    ensures m[j] + MapSum(m - {j}) == m[k] + MapSum(m - {k})
    decreases |m|, 0
  {
    var mj := m - {j};
    var mk := m - {k};
    assert mj.Keys == m.Keys - {j};
    assert mk.Keys == m.Keys - {k};
    MapSumRemove(mj, k);
    MapSumRemove(mk, j);
    assert mj - {k} == mk - {j};
  }

  /** Updating one key changes the sum by the difference of the two values. */
  lemma MapSumUpdate<K>(m: map<K, int>, k: K, v: int)
    ensures MapSum(m[k := v]) == MapSum(m) - (if k in m then m[k] else 0) + v
  {
    var m' := m[k := v];
    MapSumRemove(m', k);
    assert m' - {k} == m - {k};
    if k in m {
      MapSumRemove(m, k);
    } else {
      assert m - {k} == m;
    }
  }

  /** Merging in a dictionary of zeros, under the other's values, leaves the sum unchanged. */
  lemma {:induction false} MapSumZeroUnion<K>(d: map<K, int>, m: map<K, int>)
    requires forall k :: k in d ==> d[k] == 0
    ensures MapSum(d + m) == MapSum(m)
    decreases |d|
  {
    if |d| == 0 {
      assert d.Keys == {};
      assert d + m == m;
    } else {
      var k :| k in d;
      var rest := d - {k};
      assert rest.Keys == d.Keys - {k};
      MapSumZeroUnion(rest, m);
      ZeroUnionStep(d, rest, m, k);
    }
  }

  lemma ZeroUnionStep<K>(d: map<K, int>, rest: map<K, int>, m: map<K, int>, k: K)
    requires k in d && d[k] == 0 && rest == d - {k}
    requires MapSum(rest + m) == MapSum(m)
    ensures MapSum(d + m) == MapSum(m)
  {
    if k in m {
      UnionCovered(d, rest, m, k);
    } else {
      UnionAdded(d, rest, m, k);
      MapSumUpdate(rest + m, k, d[k]);
    }
  }

  lemma UnionCovered<K>(d: map<K, int>, rest: map<K, int>, m: map<K, int>, k: K)
    requires k in d && k in m && rest == d - {k}
    ensures d + m == rest + m
  {
    assert (d + m).Keys == (rest + m).Keys;
  }

  lemma UnionAdded<K>(d: map<K, int>, rest: map<K, int>, m: map<K, int>, k: K)
    requires k in d && k !in m && rest == d - {k}
    ensures d + m == (rest + m)[k := d[k]]
  {
    assert (d + m).Keys == (rest + m).Keys + {k};
  }

  /** A dictionary whose values are all zero sums to zero. */
  lemma {:induction false} MapSumZero<K>(m: map<K, int>)
    requires forall k :: k in m ==> m[k] == 0
    ensures MapSum(m) == 0
    decreases |m|
  {
    if |m| != 0 {
      var k :| k in m;
      MapSumRemove(m, k);
      MapSumZero(m - {k});
    }
  }
}
