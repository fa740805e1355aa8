/** Python's list.sort / sorted with a key: a stable sort, written here as
    insertion sort so that its stability is visible in the definition. */
module Sorting {

  ghost predicate SortedBy<T>(s: seq<T>, key: T -> int)
  {
    forall i, j :: 0 <= i < j < |s| ==> key(s[i]) <= key(s[j])
  }

  /** Puts x after every trailing element whose key exceeds key(x): in a sorted
      list, x lands after all elements with key <= key(x) (equal keys keep
      their order, the newcomer last). */
  function InsertBy<T>(s: seq<T>, x: T, key: T -> int): (r: seq<T>)
    ensures |r| == |s| + 1
  {
    if s == [] || key(s[|s| - 1]) <= key(x) then s + [x]
    else
      InsertBy(s[..|s| - 1], x, key) + [s[|s| - 1]]
  }

  /** sorted(s, key=key). */
  function SortBy<T>(s: seq<T>, key: T -> int): (r: seq<T>)
    ensures |r| == |s|
  {
    if s == [] then []
    else
      InsertBy(SortBy(s[..|s| - 1], key), s[|s| - 1], key)
  }

  /** Where InsertBy puts x: after the last element whose key is <= key(x). */
  function InsertIndex<T>(s: seq<T>, x: T, key: T -> int): (k: nat)
    ensures k <= |s|
    ensures forall i :: k <= i < |s| ==> key(s[i]) > key(x)
    ensures k > 0 ==> key(s[k - 1]) <= key(x)
  {
    if s == [] || key(s[|s| - 1]) <= key(x) then |s| else InsertIndex(s[..|s| - 1], x, key)
  }

  lemma {:induction false} InsertByShape<T>(s: seq<T>, x: T, key: T -> int)
    ensures var k := InsertIndex(s, x, key);
            InsertBy(s, x, key) == s[..k] + [x] + s[k..]
  {
    if !(s == [] || key(s[|s| - 1]) <= key(x)) {
      var init := s[..|s| - 1];
      InsertByShape(init, x, key);
      var k := InsertIndex(init, x, key);
      assert s[..k] == init[..k];
      assert s[k..] == init[k..] + [s[|s| - 1]];
    }
  }

  /** Inserting into a sorted list: the prefix has keys <= key(x), the suffix
      has keys > key(x), and the list stays sorted. */
  lemma InsertBySplit<T>(s: seq<T>, x: T, key: T -> int)
    requires SortedBy(s, key)
    ensures var k := InsertIndex(s, x, key);
            && InsertBy(s, x, key) == s[..k] + [x] + s[k..]
            && (forall i :: 0 <= i < k ==> key(s[i]) <= key(x))
            && (forall i :: k <= i < |s| ==> key(s[i]) > key(x))
    ensures SortedBy(InsertBy(s, x, key), key)
  {
    var k := InsertIndex(s, x, key);
    InsertByShape(s, x, key);
    forall i | 0 <= i < k ensures key(s[i]) <= key(x) {
      assert key(s[i]) <= key(s[k - 1]);
    }
    SortedSplice(s, x, key, k);
  }

  lemma SortedSplice<T>(s: seq<T>, x: T, key: T -> int, k: nat)
    requires SortedBy(s, key) && k <= |s|
    requires forall i :: 0 <= i < k ==> key(s[i]) <= key(x)
    requires forall i :: k <= i < |s| ==> key(s[i]) > key(x)
    ensures SortedBy(s[..k] + [x] + s[k..], key)
  {
    var r := s[..k] + [x] + s[k..];
    assert forall i :: 0 <= i < k ==> r[i] == s[i];
    assert r[k] == x;
    assert forall i :: k < i < |r| ==> r[i] == s[i - 1];
  }

  /** Sorting a list that is already sorted changes nothing. */
  lemma {:induction false} SortSortedIsIdentity<T>(s: seq<T>, key: T -> int)
    requires SortedBy(s, key)
    ensures SortBy(s, key) == s
  {
    if s != [] {
      var init := s[..|s| - 1];
      var last := s[|s| - 1];
      assert SortedBy(init, key);
      SortSortedIsIdentity(init, key);
      if init != [] {
        assert key(init[|init| - 1]) <= key(last);
      }
      calc {
        SortBy(s, key);
        InsertBy(SortBy(init, key), last, key);
        InsertBy(init, last, key);
        init + [last];
        s;
      }
    }
  }

  /** The result of SortBy is sorted. */
  lemma {:induction false} SortBySorted<T>(s: seq<T>, key: T -> int)
    ensures SortedBy(SortBy(s, key), key)
  {
    if s != [] {
      SortBySorted(s[..|s| - 1], key);
      InsertBySplit(SortBy(s[..|s| - 1], key), s[|s| - 1], key);
    }
  }

  lemma InsertByMultiset<T>(t: seq<T>, x: T, key: T -> int)
    ensures multiset(InsertBy(t, x, key)) == multiset(t) + multiset{x}
  {
    InsertByShape(t, x, key);
    SpliceMultiset(t, x, InsertIndex(t, x, key));
  }

  lemma SpliceMultiset<T>(t: seq<T>, x: T, k: nat)
    requires k <= |t|
    ensures multiset(t[..k] + [x] + t[k..]) == multiset(t) + multiset{x}
  {
    assert t == t[..k] + t[k..];
  }

  /** Sorting only reorders: the result is a permutation of its input. */
  lemma {:induction false} SortByPermutation<T>(s: seq<T>, key: T -> int)
    ensures multiset(SortBy(s, key)) == multiset(s)
  {
    if s != [] {
      var init := s[..|s| - 1];
      SortByPermutation(init, key);
      InsertByMultiset(SortBy(init, key), s[|s| - 1], key);
      assert s == init + [s[|s| - 1]];
    }
  }

  /** Appending to a sorted list and sorting is a single stable insertion. */
  lemma AppendThenSort<T>(s: seq<T>, x: T, key: T -> int)
    requires SortedBy(s, key)
    ensures SortBy(s + [x], key) == InsertBy(s, x, key)
  {
    assert (s + [x])[..|s|] == s;
    SortSortedIsIdentity(s, key);
  }
}
