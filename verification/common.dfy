/** Shared vocabulary of the model: optional values, results, time, the
    one-second sampling grid the dashboard charts use, and the "append to the
    key's vector or start a new one" grouping that several charts perform. */
module Common {

  datatype Option<+T> = None | Some(value: T) {
    /** Rust's `unwrap_or`. */
    function GetOr(default: T): T {
      match this
      case Some(v) => v
      case None => default
    }
  }

  datatype Result<+T, +E> = Success(value: T) | Failure(error: E)

  /** A point in time in nanoseconds since the Unix epoch; stands for both
      `std::time::SystemTime` and `chrono::DateTime<Utc>`. */
  type Time = int

  /** A span of time in nanoseconds (`std::time::Duration` is never negative). */
  type Duration = nat

  const NanosPerSecond: nat := 1_000_000_000

  /** `Duration::from_secs(n)`. */
  function Seconds(n: nat): Duration {
    n * NanosPerSecond
  }

  /** Rust's `u32`. */
  type U32 = x: int | 0 <= x < 0x1_0000_0000

  /** The times `from`, `from + 1 s`, `from + 2 s`, ... that do not exceed
      `until`: what a `while t <= until { ...; t += 1 s }` loop visits. */
  function SecondTicks(from: Time, until: Time): (r: seq<Time>)
    ensures from <= until <==> r != []
    ensures forall k :: 0 <= k < |r| ==> r[k] == from + k * NanosPerSecond
    ensures r != [] ==> r[|r| - 1] <= until < r[|r| - 1] + NanosPerSecond
    decreases until - from
  {
    if from > until then []
    else
      var rest := SecondTicks(from + NanosPerSecond, until);
      assert forall k :: 1 <= k < |rest| + 1 ==> ([from] + rest)[k] == rest[k - 1];
      [from] + rest
  }

  /** The values paired with key `k`, in the order they occur in `pairs`. */
  function ValuesFor<K(==), V>(pairs: seq<(K, V)>, k: K): seq<V> {
    if pairs == [] then []
    else (if pairs[0].0 == k then [pairs[0].1] else []) + ValuesFor(pairs[1..], k)
  }

  /** The vector stored under `k`, or the empty one. */
  function Lookup<K, V>(m: map<K, seq<V>>, k: K): seq<V> {
    if k in m then m[k] else []
  }

  /** `if let Some(v) = m.get_mut(&k) { v.push(x) } else { m.insert(k, vec![x]) }` */
  function PushGrouped<K(!new), V>(m: map<K, seq<V>>, k: K, x: V): (r: map<K, seq<V>>)
    ensures r.Keys == m.Keys + {k}
    ensures forall k' :: Lookup(r, k') == Lookup(m, k') + (if k' == k then [x] else [])
  {
    if k in m then m[k := m[k] + [x]] else m[k := [x]]
  }

  /** Folds `PushGrouped` over `pairs` in order, starting from `m`. Each key
      ends up holding its earlier values followed by its values in `pairs`,
      in the order they occur there. */
  function GroupFrom<K(==,!new), V>(m: map<K, seq<V>>, pairs: seq<(K, V)>): (r: map<K, seq<V>>)
    ensures forall k :: k in r <==> k in m || ValuesFor(pairs, k) != []
    ensures forall k :: k in r ==> r[k] == Lookup(m, k) + ValuesFor(pairs, k)
    decreases |pairs|
  {
    if pairs == [] then m
    else
      var next := PushGrouped(m, pairs[0].0, pairs[0].1);
      var rest := GroupFrom(next, pairs[1..]);
      assert forall k :: k in rest <==> k in m || ValuesFor(pairs, k) != [] by {
        forall k ensures k in rest <==> k in m || ValuesFor(pairs, k) != [] {
          var here := if pairs[0].0 == k then [pairs[0].1] else [];
          assert ValuesFor(pairs, k) == here + ValuesFor(pairs[1..], k);
          assert |here + ValuesFor(pairs[1..], k)| == |here| + |ValuesFor(pairs[1..], k)|;
        }
      }
      assert forall k :: k in rest ==> rest[k] == Lookup(m, k) + ValuesFor(pairs, k) by {
        forall k | k in rest ensures rest[k] == Lookup(m, k) + ValuesFor(pairs, k) {
          var here := if pairs[0].0 == k then [pairs[0].1] else [];
          assert ValuesFor(pairs, k) == here + ValuesFor(pairs[1..], k);
          AppendAssoc(Lookup(m, k), here, ValuesFor(pairs[1..], k));
        }
      }
      rest
  }

  lemma AppendAssoc<T>(a: seq<T>, b: seq<T>, c: seq<T>)
    ensures (a + b) + c == a + (b + c)
  {
  }

  lemma {:induction false} ValuesForAppend<K, V>(a: seq<(K, V)>, b: seq<(K, V)>, k: K)
    ensures ValuesFor(a + b, k) == ValuesFor(a, k) + ValuesFor(b, k)
    decreases |a|
  {
    if a == [] {
      assert a + b == b;
    } else {
      var head := if a[0].0 == k then [a[0].1] else [];
      assert (a + b)[0] == a[0];
      assert (a + b)[1..] == a[1..] + b;
      assert ValuesFor(a + b, k) == head + ValuesFor(a[1..] + b, k);
      ValuesForAppend(a[1..], b, k);
      assert ValuesFor(a, k) == head + ValuesFor(a[1..], k);
    }
  }

  /** The value of every pair is among the values of its key. */
  lemma {:induction false} ValuesForHas<K, V>(pairs: seq<(K, V)>, i: nat)
    requires i < |pairs|
    ensures pairs[i].1 in ValuesFor(pairs, pairs[i].0)
    decreases i
  {
    if i > 0 {
      ValuesForHas(pairs[1..], i - 1);
      assert pairs[1..][i - 1] == pairs[i];
    }
  }

  lemma {:induction false} ValuesForNonEmpty<K, V>(pairs: seq<(K, V)>, k: K)
    ensures ValuesFor(pairs, k) != [] <==> exists i :: 0 <= i < |pairs| && pairs[i].0 == k
    decreases |pairs|
  {
    if pairs != [] {
      ValuesForNonEmpty(pairs[1..], k);
      if pairs[0].0 != k {
        forall i | 0 < i < |pairs| && pairs[i].0 == k
          ensures exists j :: 0 <= j < |pairs[1..]| && pairs[1..][j].0 == k
        {
          assert pairs[1..][i - 1].0 == k;
        }
      }
    }
  }

  /** Some enumeration of the entries of `m`, each exactly once: the order in
      which a Rust `HashMap` is iterated is unspecified, so the model commits
      to no particular order. */
  ghost function Enumerate<K(!new), V>(m: map<K, V>): (r: seq<(K, V)>)
    ensures |r| == |m|
    ensures forall k :: ValuesFor(r, k) == if k in m then [m[k]] else []
    decreases |m|
  {
    if m == map[] then []
    else
      var k :| k in m;
      var rest := m - {k};
      assert rest.Keys == m.Keys - {k};
      var tail := Enumerate(rest);
      assert ([(k, m[k])] + tail)[1..] == tail;
      [(k, m[k])] + tail
  }

  /** Sets `k := x` for every pair in order, as `HashMap::extend` does; a later
      pair overwrites an earlier one for the same key. */
  function ExtendFrom<K, V>(m: map<K, V>, pairs: seq<(K, V)>): (r: map<K, V>)
    // no key is dropped, and each new key comes from a pair
    ensures m.Keys <= r.Keys
    ensures forall k :: k in r ==> k in m || exists i :: 0 <= i < |pairs| && pairs[i].0 == k
    decreases |pairs|
  {
    if pairs == [] then m
    else ExtendFrom(m[pairs[0].0 := pairs[0].1], pairs[1..])
  }

  /** Extending a map keeps, for every key, the LAST value `pairs` gives it,
      and the old value for keys `pairs` does not mention. */
  lemma {:induction false} ExtendFromLastWins<K, V>(m: map<K, V>, pairs: seq<(K, V)>, k: K)
    ensures var r := ExtendFrom(m, pairs);
            var vs := ValuesFor(pairs, k);
            && (k in r <==> k in m || vs != [])
            && (vs != [] ==> r[k] == vs[|vs| - 1])
            && (vs == [] && k in m ==> r[k] == m[k])
    decreases |pairs|
  {
    if pairs != [] {
      ExtendFromLastWins(m[pairs[0].0 := pairs[0].1], pairs[1..], k);
    }
  }
}
