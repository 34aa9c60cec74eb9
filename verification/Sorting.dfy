/** The stable sort the browser gives `xs.sort((a, b) => key(a) - key(b))`, and what identifies its result. */
module Sorting {

  ghost predicate Sorted<T(!new)>(s: seq<T>, key: T -> int) {
    forall i, j :: 0 <= i < j < |s| ==> key(s[i]) <= key(s[j])
  }

  /** Puts `x` in front of the first element whose key is not smaller. */
  function Insert<T>(x: T, s: seq<T>, key: T -> int): seq<T> {
    if s == [] || key(x) <= key(s[0]) then [x] + s else [s[0]] + Insert(x, s[1..], key)
  }

  function StableSort<T>(s: seq<T>, key: T -> int): seq<T> {
    if s == [] then [] else Insert(s[0], StableSort(s[1..], key), key)
  }

  /** The elements with key `k`, in the order in which they stand. */
  function Bucket<T>(s: seq<T>, key: T -> int, k: int): seq<T> {
    if s == [] then []
    else (if key(s[0]) == k then [s[0]] else []) + Bucket(s[1..], key, k)
  }

  lemma {:induction false} InsertIsPermutation<T>(x: T, s: seq<T>, key: T -> int)
    ensures multiset(Insert(x, s, key)) == multiset{x} + multiset(s)
    ensures |Insert(x, s, key)| == |s| + 1
  {
    if s != [] && key(x) > key(s[0]) {
      InsertIsPermutation(x, s[1..], key);
      assert s == [s[0]] + s[1..];
    }
  }

  lemma {:induction false} InsertKeepsSorted<T(!new)>(x: T, s: seq<T>, key: T -> int)
    requires Sorted(s, key)
    ensures Sorted(Insert(x, s, key), key)
  {
    if s != [] && key(x) > key(s[0]) {
      InsertKeepsSorted(x, s[1..], key);
      InsertIsPermutation(x, s[1..], key);
      var r := Insert(x, s[1..], key);
      forall j | 0 <= j < |r| ensures key(s[0]) <= key(r[j]) {
        assert r[j] in multiset(r);
      }
    }
  }

  lemma BucketOfCons<T>(x: T, s: seq<T>, key: T -> int, k: int)
    ensures Bucket([x] + s, key, k) == if key(x) == k then [x] + Bucket(s, key, k) else Bucket(s, key, k)
  {
    assert ([x] + s)[1..] == s;
  }

  lemma {:induction false} BucketOfConcat<T>(a: seq<T>, b: seq<T>, key: T -> int, k: int)
    ensures Bucket(a + b, key, k) == Bucket(a, key, k) + Bucket(b, key, k)
  {
    if a == [] {
      assert a + b == b;
    } else {
      var x, rest := a[0], a[1..];
      assert a + b == [x] + (rest + b);
      BucketOfConcat(rest, b, key, k);
      BucketOfCons(x, rest, key, k);
      BucketOfCons(x, rest + b, key, k);
      assert a == [x] + rest;
      hide Bucket;
      assert [x] + Bucket(rest, key, k) + Bucket(b, key, k) == [x] + (Bucket(rest, key, k) + Bucket(b, key, k));
    }
  }

  lemma {:induction false} InsertIsStable<T(!new)>(x: T, s: seq<T>, key: T -> int, k: int)
    ensures Bucket(Insert(x, s, key), key, k) == Bucket([x] + s, key, k)
  {
    if s != [] && key(x) > key(s[0]) {
      InsertIsStable(x, s[1..], key, k);
      assert ([x] + s)[1..] == s && ([x] + s[1..])[1..] == s[1..];
      assert ([s[0]] + Insert(x, s[1..], key))[1..] == Insert(x, s[1..], key);
    }
  }

  /** The sort is a permutation, is sorted, and keeps the order of equal keys. */
  lemma {:induction false} StableSortSpec<T(!new)>(s: seq<T>, key: T -> int)
    ensures multiset(StableSort(s, key)) == multiset(s)
    ensures |StableSort(s, key)| == |s|
    ensures Sorted(StableSort(s, key), key)
    ensures forall k :: Bucket(StableSort(s, key), key, k) == Bucket(s, key, k)
  {
    if s != [] {
      var r := StableSort(s[1..], key);
      StableSortSpec(s[1..], key);
      InsertIsPermutation(s[0], r, key);
      InsertKeepsSorted(s[0], r, key);
      assert s == [s[0]] + s[1..];
      forall k ensures Bucket(StableSort(s, key), key, k) == Bucket(s, key, k) {
        InsertIsStable(s[0], r, key, k);
        BucketOfConcat([s[0]], r, key, k);
        BucketOfConcat([s[0]], s[1..], key, k);
      }
    }
  }

  lemma {:induction false} BucketKeeps<T>(s: seq<T>, key: T -> int, k: int)
    ensures forall x :: x in Bucket(s, key, k) <==> x in s && key(x) == k
  {
    if s != [] { BucketKeeps(s[1..], key, k); }
  }

  /** Two sorted sequences with the same elements per key, in the same order, are one sequence. */
  lemma {:induction false} SortedByBuckets<T(!new)>(a: seq<T>, b: seq<T>, key: T -> int)
    requires Sorted(a, key) && Sorted(b, key)
    requires forall k :: Bucket(a, key, k) == Bucket(b, key, k)
    ensures a == b
  {
    if a == [] || b == [] {
      if a != [] { BucketKeeps(a, key, key(a[0])); BucketKeeps(b, key, key(a[0])); }
      if b != [] { BucketKeeps(b, key, key(b[0])); BucketKeeps(a, key, key(b[0])); }
    } else {
      BucketKeeps(a, key, key(b[0])); BucketKeeps(b, key, key(b[0]));
      BucketKeeps(a, key, key(a[0])); BucketKeeps(b, key, key(a[0]));
      assert a[0] in Bucket(a, key, key(a[0])) && b[0] in Bucket(b, key, key(b[0]));
      assert key(a[0]) == key(b[0]);
      assert Bucket(a, key, key(a[0]))[0] == a[0] && Bucket(b, key, key(a[0]))[0] == b[0];
      forall k ensures Bucket(a[1..], key, k) == Bucket(b[1..], key, k) {
        if k == key(a[0]) {
          assert Bucket(a, key, k)[1..] == Bucket(a[1..], key, k);
          assert Bucket(b, key, k)[1..] == Bucket(b[1..], key, k);
        } else {
          assert Bucket(a, key, k) == [] + Bucket(a[1..], key, k) == Bucket(a[1..], key, k);
          assert Bucket(b, key, k) == [] + Bucket(b[1..], key, k) == Bucket(b[1..], key, k);
        }
      }
      SortedByBuckets(a[1..], b[1..], key);
      assert a == [a[0]] + a[1..] && b == [b[0]] + b[1..];
    }
  }

  /** Sorting what is already sorted changes nothing. */
  lemma SortOfSorted<T(!new)>(s: seq<T>, key: T -> int)
    requires Sorted(s, key)
    ensures StableSort(s, key) == s
  {
    StableSortSpec(s, key);
    SortedByBuckets(StableSort(s, key), s, key);
  }

  ghost predicate DistinctKeys<T(!new)>(s: seq<T>, key: T -> int) {
    forall i, j :: 0 <= i < j < |s| ==> key(s[i]) != key(s[j])
  }

  /** With distinct keys the order of delivery does not matter. */
  lemma TailsAgree<T>(a: seq<T>, b: seq<T>)
    requires a != [] && b != [] && a[0] == b[0] && multiset(a) == multiset(b)
    ensures multiset(a[1..]) == multiset(b[1..])
  {
    assert a == [a[0]] + a[1..] && b == [b[0]] + b[1..];
    assert multiset(a[1..]) == multiset(a) - multiset{a[0]};
    assert multiset(b[1..]) == multiset(b) - multiset{b[0]};
  }

  lemma {:induction false} SortedPermutationsAgree<T(!new)>(a: seq<T>, b: seq<T>, key: T -> int)
    requires Sorted(a, key) && Sorted(b, key) && multiset(a) == multiset(b)
    requires DistinctKeys(a, key)
    ensures a == b
  {
    if a == [] || b == [] {
      assert |a| == |multiset(a)| == |multiset(b)| == |b|;
    } else {
      SameHead(a, b, key);
      TailsAgree(a, b);
      SortedPermutationsAgree(a[1..], b[1..], key);
      assert a == [a[0]] + a[1..] && b == [b[0]] + b[1..];
    }
  }

  lemma SameHead<T(!new)>(a: seq<T>, b: seq<T>, key: T -> int)
    requires a != [] && b != []
    requires Sorted(a, key) && Sorted(b, key) && multiset(a) == multiset(b)
    requires DistinctKeys(a, key)
    ensures a[0] == b[0]
  {
    assert a[0] in multiset(b) && b[0] in multiset(a);
    var j :| 0 <= j < |a| && a[j] == b[0];
    var i :| 0 <= i < |b| && b[i] == a[0];
    assert key(a[0]) <= key(a[j]) && key(b[0]) <= key(b[i]);
    assert j == 0;
  }
}
