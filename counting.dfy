/** The `counts[k] = counts.get(k, 0) + 1` loops of the repository: an
    insertion-ordered tally of how often each key occurs. */
module Counting {
  import opened Common

  datatype Bucket<K> = Bucket(key: K, count: nat)

  /** counts[k] = counts.get(k, 0) + 1 on an insertion-ordered dict. */
  function Bump<K(==)>(t: seq<Bucket<K>>, k: K): (r: seq<Bucket<K>>)
    ensures |r| == if k in Keys(t) then |t| else |t| + 1
  {
    if t == [] then [Bucket(k, 1)]
    else if t[0].key == k then [Bucket(k, t[0].count + 1)] + t[1..]
    else [t[0]] + Bump(t[1..], k)
  }

  function Keys<K>(t: seq<Bucket<K>>): seq<K>
  {
    if t == [] then [] else [t[0].key] + Keys(t[1..])
  }

  /** The tally of xs, built left to right. */
  function TallyOf<K(==)>(xs: seq<K>): seq<Bucket<K>>
  {
    if xs == [] then [] else Bump(TallyOf(xs[..|xs| - 1]), xs[|xs| - 1])
  }

  function Total<K>(t: seq<Bucket<K>>): int
  {
    if t == [] then 0 else t[0].count + Total(t[1..])
  }

  /** The count recorded for k, 0 when k was never seen. */
  function CountOf<K(==)>(t: seq<Bucket<K>>, k: K): nat
  {
    if t == [] then 0 else if t[0].key == k then t[0].count else CountOf(t[1..], k)
  }

  lemma {:induction false} BumpTotal<K>(t: seq<Bucket<K>>, k: K)
    ensures Total(Bump(t, k)) == Total(t) + 1
  {
    if t != [] && t[0].key != k {
      BumpTotal(t[1..], k);
    }
  }

  /** The counts of a tally add up to the number of tallied items. */
  lemma {:induction false} TallyTotal<K>(xs: seq<K>)
    ensures Total(TallyOf(xs)) == |xs|
  {
    if xs != [] {
      TallyTotal(xs[..|xs| - 1]);
      BumpTotal(TallyOf(xs[..|xs| - 1]), xs[|xs| - 1]);
    }
  }

  lemma {:induction false} BumpCount<K>(t: seq<Bucket<K>>, k: K, j: K)
    ensures CountOf(Bump(t, k), j) == CountOf(t, j) + (if j == k then 1 else 0)
  {
    if t != [] && t[0].key != k {
      BumpCount(t[1..], k, j);
    }
  }

  /** Each key's count is its number of occurrences. */
  lemma {:induction false} TallyCount<K>(xs: seq<K>, k: K)
    ensures CountOf(TallyOf(xs), k) == Count(xs, k)
  {
    if xs != [] {
      var init := xs[..|xs| - 1];
      TallyCount(init, k);
      BumpCount(TallyOf(init), xs[|xs| - 1], k);
      CountAppend(init, [xs[|xs| - 1]], k);
      assert init + [xs[|xs| - 1]] == xs;
    }
  }

  lemma {:induction false} CountAppend<K>(a: seq<K>, b: seq<K>, k: K)
    ensures Count(a + b, k) == Count(a, k) + Count(b, k)
  {
    if a == [] {
      assert a + b == b;
    } else {
      assert (a + b)[1..] == a[1..] + b;
      CountAppend(a[1..], b, k);
    }
  }
}
