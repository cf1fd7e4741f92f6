/**
 * Reading every entry of a hash table: Rust's `HashMap::values()` visits the
 * entries in an order the program does not control, so the order is left open
 * here and only what is visited, and how often, is stated.
 */
module Tables {

  /** The keys among `keys` whose entry `keep` accepts. */
  ghost function Kept<K, V>(m: map<K, V>, keep: V -> bool, keys: set<K>): set<K>
  {
    set k | k in keys && k in m && keep(m[k])
  }

  /** Visiting one more key adds it to the kept ones exactly when its entry is accepted. */
  lemma KeptStep<K, V>(m: map<K, V>, keep: V -> bool, done: set<K>, k: K)
    requires k in m && k !in done
    ensures keep(m[k]) ==> |Kept(m, keep, done + {k})| == |Kept(m, keep, done)| + 1
    ensures !keep(m[k]) ==> Kept(m, keep, done + {k}) == Kept(m, keep, done)
  {
    if keep(m[k]) {
      assert Kept(m, keep, done + {k}) == Kept(m, keep, done) + {k};
    }
  }

  /**
   * `m.values().filter(keep).cloned().collect()`: every accepted entry once,
   * in some order, and nothing else.
   */
  method Select<K, V(==)>(m: map<K, V>, keep: V -> bool) returns (out: seq<V>, ghost keys: seq<K>)
    ensures forall v :: v in out ==> v in m.Values && keep(v)
    ensures forall k :: k in m && keep(m[k]) ==> m[k] in out
    ensures |out| == |Kept(m, keep, m.Keys)|
    ensures |keys| == |out| && forall i :: 0 <= i < |out| ==> keys[i] in m && out[i] == m[keys[i]]
    ensures forall i, j :: 0 <= i < j < |keys| ==> keys[i] != keys[j]
  {
    var remaining := m.Keys;
    ghost var done: set<K> := {};
    out, keys := [], [];
    while remaining != {}
      invariant remaining <= m.Keys && done == m.Keys - remaining
      invariant forall v :: v in out ==> v in m.Values && keep(v)
      invariant forall k :: k in done && keep(m[k]) ==> m[k] in out
      invariant |out| == |Kept(m, keep, done)|
      invariant |keys| == |out| && forall i :: 0 <= i < |out| ==> keys[i] in done && out[i] == m[keys[i]]
      invariant forall i, j :: 0 <= i < j < |keys| ==> keys[i] != keys[j]
      decreases |remaining|
    {
      var k :| k in remaining;
      KeptStep(m, keep, done, k);
      if keep(m[k]) {
        out, keys := out + [m[k]], keys + [k];
      }
      remaining := remaining - {k};
      done := done + {k};
    }
    assert done == m.Keys;
  }

  /** `m.values().cloned().collect()`: one element per entry. */
  method AllValues<K, V(==)>(m: map<K, V>) returns (out: seq<V>)
    ensures forall v :: v in out <==> v in m.Values
    ensures |out| == |m|
  {
    var all: V -> bool := _ => true;
    ghost var keys;
    out, keys := Select(m, all);
    assert Kept(m, all, m.Keys) == m.Keys;
  }
}

/** `iter().filter(keep).collect()` on a vector: the accepted elements, in their order. */
module Lists {

  function Filter<T(!new)>(xs: seq<T>, keep: T -> bool): (r: seq<T>)
    ensures |r| <= |xs|
    ensures forall x :: x in r <==> x in xs && keep(x)
  {
    if xs == [] then []
    else (if keep(xs[0]) then [xs[0]] else []) + Filter(xs[1..], keep)
  }

  /** The filter works piece by piece, so the kept elements keep their relative order. */
  lemma {:induction false} FilterAppend<T(!new)>(a: seq<T>, b: seq<T>, keep: T -> bool)
    ensures Filter(a + b, keep) == Filter(a, keep) + Filter(b, keep)
  {
    if a == [] {
      assert a + b == b;
    } else {
      assert (a + b)[1..] == a[1..] + b;
      FilterAppend(a[1..], b, keep);
    }
  }

  /** When every element is accepted, nothing is dropped. */
  lemma {:induction false} FilterKeepsAll<T(!new)>(xs: seq<T>, keep: T -> bool)
    requires forall x :: x in xs ==> keep(x)
    ensures Filter(xs, keep) == xs
  {
    if xs != [] {
      assert xs[0] in xs;
      FilterKeepsAll(xs[1..], keep);
    }
  }

  /** Filtering twice is filtering once. */
  lemma FilterIdempotent<T(!new)>(xs: seq<T>, keep: T -> bool)
    ensures Filter(Filter(xs, keep), keep) == Filter(xs, keep)
  {
    FilterKeepsAll(Filter(xs, keep), keep);
  }

  /** A stricter test keeps no more elements, and only elements the looser test kept. */
  lemma {:induction false} FilterStricter<T(!new)>(xs: seq<T>, strict: T -> bool, loose: T -> bool)
    requires forall x :: strict(x) ==> loose(x)
    ensures |Filter(xs, strict)| <= |Filter(xs, loose)|
    ensures forall x :: x in Filter(xs, strict) ==> x in Filter(xs, loose)
  {
    if xs != [] {
      FilterStricter(xs[1..], strict, loose);
    }
  }
}
