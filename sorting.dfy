/** Python's `list.sort(key=k, reverse=True)`, as the pages use it: the result is ordered
    by key, largest first, is a permutation of the input, and keeps elements with equal
    keys in their input order (the sort is stable). */
module Sorting {

  predicate SortedDesc<T>(s: seq<T>, key: T -> int)
  {
    forall i, j :: 0 <= i < j < |s| ==> key(s[i]) >= key(s[j])
  }

  /** Places `x` in front of the first element whose key is not larger, so that among
      equal keys the element inserted later (which came earlier in the input) stays first. */
  function InsertDesc<T>(x: T, r: seq<T>, key: T -> int): (out: seq<T>)
    ensures |out| == |r| + 1 && (out[0] == x || (r != [] && out[0] == r[0]))
  {
    if r == [] then [x]
    else if key(r[0]) <= key(x) then [x] + r
    else [r[0]] + InsertDesc(x, r[1..], key)
  }

  lemma {:induction false} InsertDescPermutes<T>(x: T, r: seq<T>, key: T -> int)
    ensures multiset(InsertDesc(x, r, key)) == multiset(r) + multiset{x}
  {
    if r != [] && key(r[0]) > key(x) {
      InsertDescPermutes(x, r[1..], key);
      assert r == [r[0]] + r[1..];
    }
  }

  lemma {:induction false} InsertDescSorted<T>(x: T, r: seq<T>, key: T -> int)
    requires SortedDesc(r, key)
    ensures SortedDesc(InsertDesc(x, r, key), key)
  {
    if r != [] && key(r[0]) > key(x) {
      var rest := InsertDesc(x, r[1..], key);
      InsertDescSorted(x, r[1..], key);
      InsertDescPermutes(x, r[1..], key);
      forall k | 0 <= k < |rest|
        ensures key(r[0]) >= key(rest[k])
      {
        assert rest[k] in multiset(rest);
        if rest[k] != x {
          assert rest[k] in multiset(r[1..]);
          var j :| 0 <= j < |r[1..]| && r[1..][j] == rest[k];
          assert r[j + 1] == rest[k];
        }
      }
    }
  }

  /** Insertion sort by descending key. */
  function SortDesc<T>(s: seq<T>, key: T -> int): (out: seq<T>)
    ensures SortedDesc(out, key)
    ensures multiset(out) == multiset(s)
  {
    if s == [] then []
    else
      var rest := SortDesc(s[1..], key);
      InsertDescSorted(s[0], rest, key);
      InsertDescPermutes(s[0], rest, key);
      assert s == [s[0]] + s[1..];
      InsertDesc(s[0], rest, key)
  }

  lemma SortDescLength<T>(s: seq<T>, key: T -> int)
    ensures |SortDesc(s, key)| == |s|
  {
    assert |multiset(SortDesc(s, key))| == |multiset(s)|;
  }

  /** The elements of `s` whose key is `v`, in order. */
  function WithKey<T>(s: seq<T>, key: T -> int, v: int): (r: seq<T>)
    ensures |r| <= |s|
  {
    if s == [] then [] else (if key(s[0]) == v then [s[0]] else []) + WithKey(s[1..], key, v)
  }

  /** Inserting `x` passes over elements with larger keys only, so among the elements of
      any one key it lands first, and the others keep their order. */
  lemma {:induction false} InsertDescKeepsOrder<T>(x: T, r: seq<T>, key: T -> int, v: int)
    ensures WithKey(InsertDesc(x, r, key), key, v) == (if key(x) == v then [x] else []) + WithKey(r, key, v)
  {
    if r == [] {
      assert [x][1..] == [];
    } else if key(r[0]) <= key(x) {
      assert ([x] + r)[1..] == r;
    } else {
      var out := InsertDesc(x, r, key);
      InsertDescKeepsOrder(x, r[1..], key, v);
      assert out[1..] == InsertDesc(x, r[1..], key);
    }
  }

  /** The sort is stable: for every key, the elements with that key come out in the order
      they went in. */
  lemma {:induction false} SortDescIsStable<T>(s: seq<T>, key: T -> int, v: int)
    ensures WithKey(SortDesc(s, key), key, v) == WithKey(s, key, v)
  {
    if s != [] {
      SortDescIsStable(s[1..], key, v);
      InsertDescKeepsOrder(s[0], SortDesc(s[1..], key), key, v);
    }
  }
}
