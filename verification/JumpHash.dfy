/** Jump consistent hashing. */
module JumpHash {
  const TWO_31 := 0x8000_0000
  const TWO_33 := 0x2_0000_0000
  const TWO_53 := 0x20_0000_0000_0000
  const TWO_62 := 0x4000_0000_0000_0000
  const TWO_64 := 0x1_0000_0000_0000_0000
  const MULTIPLIER := 2862933555777941757

  /** Rounding to a double: monotone, and exact on integers that a double can hold. */
  ghost predicate Rounding(fl: real -> real) {
    && (forall x: real, y: real :: x <= y ==> fl(x) <= fl(y))
    && (forall n: nat {:trigger fl(n as real)} :: n <= TWO_53 ==> fl(n as real) == n as real)
    && fl(TWO_62 as real) == TWO_62 as real
  }

  type Key = k: int | 0 <= k < TWO_64

  /** The generator step, modulo 2 to the 64th. */
  function NextKey(key: Key): Key {
    (key * MULTIPLIER + 1) % TWO_64
  }

  /** What the key's upper bits divide by. */
  function Divisor(key: Key): (d: nat)
    ensures 1 <= d <= TWO_31
  {
    key / TWO_33 + 1
  }

  /** A product with a rounded factor, rounded. */
  function Scaled(fl: real -> real, b: real, q: real): real {
    fl(b * fl(q))
  }

  /** The double expression of a jump. */
  function Target(fl: real -> real, key: Key, bucket: nat): real {
    Scaled(fl, (bucket + 1) as real, TWO_31 as real / Divisor(key) as real)
  }

  lemma Exact(fl: real -> real, n: nat, x: real)
    requires Rounding(fl) && n <= TWO_53 && x == n as real
    ensures fl(x) == x
  {
    assert fl(n as real) == n as real;
  }

  lemma Monotone(fl: real -> real, x: real, y: real)
    requires Rounding(fl) && x <= y
    ensures fl(x) <= fl(y)
  {}

  lemma QuotientBounds(d: nat)
    requires 1 <= d <= TWO_31
    ensures 1.0 <= TWO_31 as real / d as real <= TWO_31 as real
  {}

  lemma Product(x: real, y: real)
    requires x >= 0.0 && y >= 0.0
    ensures x * y >= 0.0
  {}

  lemma ProductBounds(b: real, q: real, top: real, limit: real)
    requires 0.0 <= b <= top && 1.0 <= q <= top && top * top == limit
    ensures b <= b * q <= limit
  {
    Product(b, q - 1.0);
    Product(top - b, q);
    Product(top, top - q);
  }

  /** Rounding twice keeps the product between its exactly representable bounds. */
  lemma RoundedProduct(fl: real -> real, b: real, q: real, top: real, limit: real)
    requires Rounding(fl) && 0.0 <= b <= top && 1.0 <= q <= top && top * top == limit
    requires fl(1.0) == 1.0 && fl(top) == top && fl(b) == b && fl(limit) == limit
    ensures b <= Scaled(fl, b, q) <= limit
  {
    hide Rounding;
    Monotone(fl, 1.0, q);
    Monotone(fl, q, top);
    ProductBounds(b, fl(q), top, limit);
    Monotone(fl, b, b * fl(q));
    Monotone(fl, b * fl(q), limit);
  }

  lemma ExactBounds(fl: real -> real, bucket: nat)
    requires Rounding(fl) && bucket < TWO_31
    ensures fl(1.0) == 1.0 && fl(TWO_31 as real) == TWO_31 as real && fl(TWO_62 as real) == TWO_62 as real
    ensures fl((bucket + 1) as real) == (bucket + 1) as real
  {
    Exact(fl, 1, 1.0);
    Exact(fl, TWO_31, TWO_31 as real);
    Exact(fl, bucket + 1, (bucket + 1) as real);
  }

  /** A jump goes forward and stays in the range of a 64-bit integer. */
  lemma JumpsForward(fl: real -> real, key: Key, bucket: nat)
    requires Rounding(fl) && bucket < TWO_31
    ensures (bucket + 1) as real <= Target(fl, key, bucket) <= TWO_62 as real
  {
    hide Rounding, Divisor, Scaled;
    QuotientBounds(Divisor(key));
    ExactBounds(fl, bucket);
    RoundedProduct(fl, (bucket + 1) as real, TWO_31 as real / Divisor(key) as real, TWO_31 as real, TWO_62 as real);
  }

  /** The next bucket that the key would move to. */
  function Next(fl: real -> real, key: Key, bucket: nat): (r: int)
    requires Rounding(fl) && bucket < TWO_31
    ensures bucket < r <= TWO_62
  {
    JumpsForward(fl, key, bucket);
    Target(fl, key, bucket).Floor
  }

  /** The buckets a key visits do not depend on how many there are; it stays at the
      last one that exists. */
  function Jump(fl: real -> real, key: Key, bucket: int, next: nat, buckets: int): int
    requires Rounding(fl) && buckets < TWO_31
    decreases buckets - next
  {
    if next < buckets then Jump(fl, NextKey(key), next, Next(fl, NextKey(key), next), buckets) else bucket
  }

  function BucketOf(fl: real -> real, key: Key, buckets: int): int
    requires Rounding(fl) && buckets < TWO_31
  {
    Jump(fl, key, -1, 0, buckets)
  }

  /** The loop: it terminates with a bucket in range, and no value leaves 64 bits. */
  method Hash(fl: real -> real, key: Key, buckets: int) returns (bucket: int)
    requires Rounding(fl) && buckets < TWO_31
    ensures bucket == BucketOf(fl, key, buckets)
    ensures 0 < buckets ==> 0 <= bucket < buckets
  {
    hide Rounding, NextKey, Next;
    bucket := -1;
    var next, k := 0, key;
    while next < buckets
      invariant -1 <= bucket < next <= TWO_62 && (bucket < 0 || bucket < buckets) && (bucket == -1 ==> next == 0)
      invariant Jump(fl, k, bucket, next, buckets) == BucketOf(fl, key, buckets)
      decreases buckets - next
    {
      bucket := next;
      k := NextKey(k);
      next := Next(fl, k, bucket);
    }
  }

  /** From one stop the key goes on by one step of the generator, and the next stop is
      what its upper 31 bits make of the bucket behind this one. */
  ghost predicate Goes(fl: real -> real, key: int, stop: int, key': int, stop': int)
  {
    && key' == (key * 2862933555777941757 + 1) % 0x1_0000_0000_0000_0000
    && stop' == fl((stop + 1) as real * fl(2147483648.0 / (key' / 0x2_0000_0000 + 1) as real)).Floor
  }

  /** The stops of a key: 0 first, all but the last of them buckets that exist. */
  ghost predicate Trail(fl: real -> real, key: Key, start: nat, buckets: int, keys: seq<Key>, stops: seq<nat>) {
    && |keys| == |stops| > 0 && keys[0] == key && stops[0] == start
    && (forall i :: 0 <= i < |stops| - 1 ==> Goes(fl, keys[i], stops[i], keys[i + 1], stops[i + 1]))
    && (forall i :: 0 <= i < |stops| - 1 ==> stops[i] < buckets)
    && stops[|stops| - 1] >= buckets
  }

  lemma NextGoes(fl: real -> real, key: Key, bucket: nat)
    requires Rounding(fl) && bucket < TWO_31
    ensures Goes(fl, key, bucket, NextKey(key), Next(fl, NextKey(key), bucket))
  {}

  lemma {:induction false} JumpTrail(fl: real -> real, key: Key, bucket: int, next: nat, buckets: int)
    returns (keys: seq<Key>, stops: seq<nat>)
    requires Rounding(fl) && buckets < TWO_31
    ensures Trail(fl, key, next, buckets, keys, stops)
    ensures Jump(fl, key, bucket, next, buckets) == if |stops| == 1 then bucket else stops[|stops| - 2]
    decreases buckets - next
  {
    hide Rounding, NextKey, Next, Goes;
    if next < buckets {
      NextGoes(fl, key, next);
      var moreKeys, more := JumpTrail(fl, NextKey(key), next, Next(fl, NextKey(key), next), buckets);
      keys, stops := [key] + moreKeys, [next] + more;
    } else {
      keys, stops := [key], [next];
    }
  }

  /** A key ends at the last of its stops that is a bucket. */
  lemma BucketIsLastStop(fl: real -> real, key: Key, buckets: int) returns (keys: seq<Key>, stops: seq<nat>)
    requires Rounding(fl) && buckets < TWO_31
    ensures Trail(fl, key, 0, buckets, keys, stops)
    ensures BucketOf(fl, key, buckets) == if |stops| == 1 then -1 else stops[|stops| - 2]
  {
    keys, stops := JumpTrail(fl, key, -1, 0, buckets);
  }

  lemma {:induction false} JumpInRange(fl: real -> real, key: Key, bucket: int, next: nat, buckets: int)
    requires Rounding(fl) && bucket < buckets < TWO_31 && bucket < next
    ensures bucket <= Jump(fl, key, bucket, next, buckets) < buckets
    decreases buckets - next
  {
    hide Rounding, NextKey, Next;
    if next < buckets { JumpInRange(fl, NextKey(key), next, Next(fl, NextKey(key), next), buckets); }
  }

  lemma {:induction false} JumpConsistent(fl: real -> real, key: Key, bucket: int, next: nat, n: int, m: int)
    requires Rounding(fl) && bucket < next && bucket < n <= m < TWO_31
    ensures Jump(fl, key, bucket, next, m) == Jump(fl, key, bucket, next, n) || Jump(fl, key, bucket, next, m) >= n
    decreases m - next
  {
    hide Rounding, NextKey, Next;
    if next < n {
      JumpConsistent(fl, NextKey(key), next, Next(fl, NextKey(key), next), n, m);
    } else if next < m {
      JumpInRange(fl, NextKey(key), next, Next(fl, NextKey(key), next), m);
    }
  }

  /** With more buckets a key stays where it is or moves to one of the new ones; so
      one more bucket takes keys over but makes none move between the old ones. */
  lemma Consistent(fl: real -> real, key: Key, n: int, m: int)
    requires Rounding(fl) && 0 < n <= m < TWO_31
    ensures 0 <= BucketOf(fl, key, n) < n
    ensures BucketOf(fl, key, m) == BucketOf(fl, key, n) || n <= BucketOf(fl, key, m) < m
  {
    hide Rounding, NextKey, Next;
    JumpInRange(fl, NextKey(key), 0, Next(fl, NextKey(key), 0), n);
    JumpInRange(fl, NextKey(key), 0, Next(fl, NextKey(key), 0), m);
    JumpConsistent(fl, key, -1, 0, n, m);
  }
}
