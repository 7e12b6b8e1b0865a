/**
  PHP arrays with string keys, as the proxy uses them for its query parameters
  and its cooldown table: ordered entries, at most one per key, where writing
  to an existing key keeps its position and writing a new key appends it.
 */
module Assoc {
  import opened Wrappers

  /** The entries of a PHP array, in insertion order. */
  type Entries<V> = seq<(string, V)>

  /** The keys that occur in `a`. */
  function Keys<V>(a: Entries<V>): set<string>
  {
    if a == [] then {} else {a[0].0} + Keys(a[1..])
  }

  /** No key occurs twice; every PHP array has this shape. */
  predicate Distinct<V>(a: Entries<V>)
  {
    a == [] || (a[0].0 !in Keys(a[1..]) && Distinct(a[1..]))
  }

  /** `$a[$k]`: the value stored under `k`, or None (PHP's null) when `k` is missing. */
  function Get<V>(a: Entries<V>, k: string): (r: Option<V>)
    ensures r.Some? <==> k in Keys(a)
    ensures r.Some? ==> (k, r.value) in a
  {
    if a == [] then None
    else if a[0].0 == k then Some(a[0].1)
    else Get(a[1..], k)
  }

  /** `$a[$k] = $v`: overwrites the entry in place when `k` is present, appends one otherwise. */
  function Put<V>(a: Entries<V>, k: string, v: V): (r: Entries<V>)
    ensures Keys(r) == Keys(a) + {k}
    ensures Get(r, k) == Some(v)
    ensures forall k' :: k' != k ==> Get(r, k') == Get(a, k')
    ensures |r| == if k in Keys(a) then |a| else |a| + 1
    ensures k !in Keys(a) ==> r == a + [(k, v)]
    ensures forall i :: 0 <= i < |a| ==> r[i].0 == a[i].0
    ensures Distinct(a) ==> Distinct(r)
  {
    if a == [] then [(k, v)]
    else if a[0].0 == k then [(k, v)] + a[1..]
    else [a[0]] + Put(a[1..], k, v)
  }

  /**
    `array_merge($a, $b)` for string keys: every entry of `b` is written into
    `a` in turn, so a key of `b` overrides the same key of `a` without moving
    it, and keys new to `a` follow in the order `b` has them.
   */
  function Merge<V>(a: Entries<V>, b: Entries<V>): (r: Entries<V>)
    ensures Keys(r) == Keys(a) + Keys(b)
    ensures |r| >= |a|
    ensures forall i :: 0 <= i < |a| ==> r[i].0 == a[i].0
    ensures Distinct(a) ==> Distinct(r)
    ensures forall k :: k !in Keys(b) ==> Get(r, k) == Get(a, k)
    ensures Distinct(b) ==> forall k :: Get(r, k) == if k in Keys(b) then Get(b, k) else Get(a, k)
    decreases |b|
  {
    if b == [] then a else Merge(Put(a, b[0].0, b[0].1), b[1..])
  }

  /* ---------------- the layout `array_merge` produces ---------------- */

  /** The entries of `a`, in place, each with `b`'s value when `b` has its key. */
  function Overwrite<V>(a: Entries<V>, b: Entries<V>): Entries<V>
  {
    if a == [] then []
    else
      var v := match Get(b, a[0].0) case Some(w) => w case None => a[0].1;
      [(a[0].0, v)] + Overwrite(a[1..], b)
  }

  /** The entries of `b` whose key is not in `ks`, in `b`'s order. */
  function Without<V>(b: Entries<V>, ks: set<string>): Entries<V>
  {
    if b == [] then []
    else (if b[0].0 in ks then [] else [b[0]]) + Without(b[1..], ks)
  }

  lemma {:induction false} OverwriteNothing<V>(a: Entries<V>)
    ensures Overwrite(a, []) == a
  {
    if a != [] {
      OverwriteNothing(a[1..]);
    }
  }

  /** A leading entry of `b` whose key `a` lacks changes nothing in `a`. */
  lemma {:induction false} OverwriteIgnoresAbsent<V>(a: Entries<V>, k: string, v: V, c: Entries<V>)
    requires k !in Keys(a)
    ensures Overwrite(a, [(k, v)] + c) == Overwrite(a, c)
  {
    if a != [] {
      assert ([(k, v)] + c)[1..] == c;
      OverwriteIgnoresAbsent(a[1..], k, v, c);
    }
  }

  /** Writing `k` into `a` first is the same as letting `b` start with `(k, v)`. */
  lemma {:induction false} OverwritePut<V>(a: Entries<V>, k: string, v: V, c: Entries<V>)
    requires Distinct(a) && k in Keys(a) && k !in Keys(c)
    ensures Overwrite(Put(a, k, v), c) == Overwrite(a, [(k, v)] + c)
  {
    assert ([(k, v)] + c)[1..] == c;
    if a[0].0 == k {
      assert Put(a, k, v)[1..] == a[1..];
      OverwriteIgnoresAbsent(a[1..], k, v, c);
    } else {
      assert Put(a, k, v)[1..] == Put(a[1..], k, v);
      OverwritePut(a[1..], k, v, c);
    }
  }

  lemma {:induction false} OverwriteAppend<V>(a: Entries<V>, e: (string, V), c: Entries<V>)
    ensures Overwrite(a + [e], c) == Overwrite(a, c) + Overwrite([e], c)
  {
    if a != [] {
      assert (a + [e])[1..] == a[1..] + [e];
      OverwriteAppend(a[1..], e, c);
    }
  }

  lemma {:induction false} WithoutIgnoresAbsent<V>(c: Entries<V>, ks: set<string>, k: string)
    requires k !in Keys(c)
    ensures Without(c, ks + {k}) == Without(c, ks)
  {
    if c != [] {
      WithoutIgnoresAbsent(c[1..], ks, k);
    }
  }

  lemma WithoutSkipsKnown<V>(k: string, v: V, c: Entries<V>, ks: set<string>)
    requires k in ks
    ensures Without([(k, v)] + c, ks) == Without(c, ks)
  {
    assert ([(k, v)] + c)[1..] == c;
  }

  lemma WithoutKeepsFresh<V>(k: string, v: V, c: Entries<V>, ks: set<string>)
    requires k !in ks
    ensures Without([(k, v)] + c, ks) == [(k, v)] + Without(c, ks)
  {
    assert ([(k, v)] + c)[1..] == c;
  }

  /** Appending an entry whose key `c` lacks appends it to the overwritten entries. */
  lemma OverwriteFresh<V>(a: Entries<V>, k: string, v: V, c: Entries<V>)
    requires k !in Keys(a) && k !in Keys(c)
    ensures Overwrite(a + [(k, v)], c) == Overwrite(a, [(k, v)] + c) + [(k, v)]
  {
    OverwriteAppend(a, (k, v), c);
    OverwriteIgnoresAbsent(a, k, v, c);
    assert Overwrite([(k, v)], c) == [(k, v)];
  }

  /** A step of `array_merge` whose key `a` already has: the value lands in the kept part. */
  lemma MergeStepKnown<V>(a: Entries<V>, k: string, v: V, c: Entries<V>)
    requires Distinct(a) && k in Keys(a) && k !in Keys(c)
    ensures Overwrite(Put(a, k, v), c) + Without(c, Keys(a))
         == Overwrite(a, [(k, v)] + c) + Without([(k, v)] + c, Keys(a))
  {
    OverwritePut(a, k, v, c);
    WithoutSkipsKnown(k, v, c, Keys(a));
  }

  /** A step of `array_merge` whose key `a` lacks: the entry is appended. */
  lemma MergeStepFresh<V>(a: Entries<V>, k: string, v: V, c: Entries<V>)
    requires k !in Keys(a) && k !in Keys(c)
    ensures Overwrite(a + [(k, v)], c) + Without(c, Keys(a))
         == Overwrite(a, [(k, v)] + c) + Without([(k, v)] + c, Keys(a))
  {
    var o, w := Overwrite(a, [(k, v)] + c), Without(c, Keys(a));
    assert Overwrite(a + [(k, v)], c) == o + [(k, v)] by {
      OverwriteFresh(a, k, v, c);
    }
    assert Without([(k, v)] + c, Keys(a)) == [(k, v)] + w by {
      WithoutKeepsFresh(k, v, c, Keys(a));
    }
    assert (o + [(k, v)]) + w == o + ([(k, v)] + w);
  }

  /** One step of `array_merge`: writing `(k, v)` into `a` and merging the rest lays out as merging `(k, v)` first. */
  lemma MergeLayoutStep<V>(a: Entries<V>, k: string, v: V, c: Entries<V>)
    requires Distinct(a) && k !in Keys(c)
    ensures Overwrite(Put(a, k, v), c) + Without(c, Keys(Put(a, k, v)))
         == Overwrite(a, [(k, v)] + c) + Without([(k, v)] + c, Keys(a))
  {
    WithoutIgnoresAbsent(c, Keys(a), k);
    if k in Keys(a) {
      MergeStepKnown(a, k, v, c);
    } else {
      MergeStepFresh(a, k, v, c);
    }
  }

  /**
    `array_merge($a, $b)` keeps `a`'s entries in place with `b`'s values where
    the keys clash, then appends `b`'s other entries in `b`'s order.
   */
  lemma {:induction false} MergeLayout<V>(a: Entries<V>, b: Entries<V>)
    requires Distinct(a) && Distinct(b)
    ensures Merge(a, b) == Overwrite(a, b) + Without(b, Keys(a))
    decreases |b|
  {
    if b == [] {
      OverwriteNothing(a);
    } else {
      var k, v, c := b[0].0, b[0].1, b[1..];
      assert b == [(k, v)] + c;
      MergeLayout(Put(a, k, v), c);
      MergeLayoutStep(a, k, v, c);
    }
  }

  /** When no key clashes, `Overwrite` leaves the first array as it was. */
  lemma {:induction false} OverwriteDisjoint<V>(a: Entries<V>, b: Entries<V>)
    requires Keys(a) !! Keys(b)
    ensures Overwrite(a, b) == a
  {
    if a != [] {
      assert Keys(a) == {a[0].0} + Keys(a[1..]);
      OverwriteDisjoint(a[1..], b);
    }
  }

  /** When none of its keys is in `ks`, `Without` keeps all of `b`. */
  lemma {:induction false} WithoutDisjoint<V>(b: Entries<V>, ks: set<string>)
    requires Keys(b) !! ks
    ensures Without(b, ks) == b
  {
    if b != [] {
      assert Keys(b) == {b[0].0} + Keys(b[1..]);
      WithoutDisjoint(b[1..], ks);
    }
  }

  /** `array_merge` of keys the first array lacks appends them in `b`'s order. */
  lemma MergeOfFreshKeys<V>(a: Entries<V>, b: Entries<V>)
    requires Distinct(a) && Distinct(b) && Keys(a) !! Keys(b)
    ensures Merge(a, b) == a + b
  {
    var o, w := Overwrite(a, b), Without(b, Keys(a));
    assert Merge(a, b) == o + w by {
      MergeLayout(a, b);
    }
    assert o == a by {
      OverwriteDisjoint(a, b);
    }
    assert w == b by {
      WithoutDisjoint(b, Keys(a));
    }
  }
}
