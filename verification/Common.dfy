/** Small shared types. */
module Common {
  datatype Option<+T> = None | Some(value: T)

  function Or<T>(o: Option<T>, x: T): T {
    if o.Some? then o.value else x
  }

  datatype Result<+T, +E> = Ok(value: T) | Err(error: E)

  /** What a request leaves behind and what it answers. */
  datatype Outcome<+D, +R, +E> = Outcome(data: D, result: Result<R, E>)

  /** The two tables differ at most in the row of this key, which the second one has. */
  predicate OnlyRow<T(==)>(before: map<string, T>, after: map<string, T>, key: string) {
    after.Keys == before.Keys + {key} && forall k :: k in before && k != key ==> after[k] == before[k]
  }

  /** Go's integer division, which truncates toward zero. */
  function TruncDiv(a: int, b: int): int
    requires b > 0
  {
    if a >= 0 then a / b else -((-a) / b)
  }
}

/** Finite sums over the values of a map, and what one update does to them. */
module MapSums {

  ghost function Sum(m: map<string, int>): int {
    if m == map[] then 0
    else
      var k :| k in m;
      m[k] + Sum(m - {k})
  }

  /** Any key can be taken out first. */
  lemma {:induction false} SumTakeOut(m: map<string, int>, k: string)
    requires k in m
    ensures Sum(m) == m[k] + Sum(m - {k})
    decreases |m|
  {
    var first :| first in m && Sum(m) == m[first] + Sum(m - {first});
    if first != k {
      SumTakeOut(m - {first}, k);
      assert m - {first} - {k} == m - {k} - {first};
      SumTakeOut(m - {k}, first);
    }
  }

  /** Writing one key moves the sum by the change at that key. */
  lemma SumPut(m: map<string, int>, k: string, v: int)
    ensures Sum(m[k := v]) == Sum(m) - (if k in m then m[k] else 0) + v
  {
    SumTakeOut(m[k := v], k);
    assert m[k := v] - {k} == m - {k};
    if k in m {
      SumTakeOut(m, k);
    } else {
      assert m - {k} == m;
    }
  }

  function Restricted(m: map<string, int>, keys: set<string>): map<string, int> {
    map k | k in m && k in keys :: m[k]
  }

  /** A sum splits into the part over some keys and the rest. */
  lemma {:induction false} SumSplit(m: map<string, int>, keys: set<string>)
    ensures Sum(m) == Sum(m - keys) + Sum(Restricted(m, keys))
    decreases |keys|
  {
    if keys == {} {
      assert m - keys == m && Restricted(m, keys) == map[];
    } else {
      var k :| k in keys;
      SumSplit(m, keys - {k});
      SumStep(m, keys, k);
    }
  }

  /** Moving one key from the rest to the part. */
  lemma SumStep(m: map<string, int>, keys: set<string>, k: string)
    requires k in keys
    ensures Sum(m - keys) + Sum(Restricted(m, keys)) == Sum(m - (keys - {k})) + Sum(Restricted(m, keys - {k}))
  {
    if k in m {
      assert m - (keys - {k}) - {k} == m - keys;
      assert Restricted(m, keys) - {k} == Restricted(m, keys - {k});
      SumTakeOut(m - (keys - {k}), k);
      SumTakeOut(Restricted(m, keys), k);
    } else {
      assert m - (keys - {k}) == m - keys && Restricted(m, keys) == Restricted(m, keys - {k});
    }
  }

  /** A sum of non-negative values is at least each of them. */
  lemma {:induction false} SumAtLeast(m: map<string, int>, k: string)
    requires k in m
    requires forall i :: i in m ==> m[i] >= 0
    ensures Sum(m) >= m[k]
  {
    SumTakeOut(m, k);
    SumNonNegative(m - {k});
  }

  lemma {:induction false} SumNonNegative(m: map<string, int>)
    requires forall i :: i in m ==> m[i] >= 0
    ensures Sum(m) >= 0
    decreases |m|
  {
    if m != map[] {
      var k :| k in m;
      SumTakeOut(m, k);
      SumNonNegative(m - {k});
    }
  }
}
