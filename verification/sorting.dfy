/** Stable sorting by an integer key. JavaScript's `Array.prototype.sort` is
    stable, so `xs.sort((a, b) => key(a) - key(b))` is the unique arrangement
    that is ascending by key and keeps the relative order of equal keys; the
    insertion sort below produces exactly that arrangement. */
module Sorting {
  import opened Seqs

  ghost predicate SortedBy<T>(s: seq<T>, key: T -> int) {
    forall i, j :: 0 <= i < j < |s| ==> key(s[i]) <= key(s[j])
  }

  /** The elements of `s` whose key is `k`, in their order in `s`. */
  function WithKey<T>(s: seq<T>, key: T -> int, k: int): seq<T>
    decreases |s|
  {
    if |s| == 0 then []
    else
      var r := WithKey(s[..|s| - 1], key, k);
      if key(s[|s| - 1]) == k then r + [s[|s| - 1]] else r
  }

  /** Places `x` after every element of `s` whose key does not exceed its own. */
  function Insert<T>(s: seq<T>, x: T, key: T -> int): seq<T>
    decreases |s|
  {
    if |s| == 0 || key(s[|s| - 1]) <= key(x) then s + [x]
    else Insert(s[..|s| - 1], x, key) + [s[|s| - 1]]
  }

  lemma {:induction false} InsertMultiset<T>(s: seq<T>, x: T, key: T -> int)
    ensures multiset(Insert(s, x, key)) == multiset(s) + multiset{x}
    ensures |Insert(s, x, key)| == |s| + 1
    decreases |s|
  {
    if |s| == 0 || key(s[|s| - 1]) <= key(x) {
    } else {
      InsertMultiset(s[..|s| - 1], x, key);
      assert s == s[..|s| - 1] + [s[|s| - 1]];
    }
  }

  lemma {:induction false} InsertSorted<T>(s: seq<T>, x: T, key: T -> int)
    requires SortedBy(s, key)
    ensures SortedBy(Insert(s, x, key), key)
    decreases |s|
  {
    if |s| == 0 || key(s[|s| - 1]) <= key(x) {
    } else {
      var init := s[..|s| - 1];
      var last := s[|s| - 1];
      InsertSorted(init, x, key);
      InsertMultiset(init, x, key);
      var t := Insert(init, x, key);
      forall i | 0 <= i < |t|
        ensures key(t[i]) <= key(last)
      {
        assert t[i] in multiset(t);
        assert t[i] in multiset(init) || t[i] == x;
        if t[i] != x {
          var j :| 0 <= j < |init| && init[j] == t[i];
          assert s[j] == init[j];
        }
      }
    }
  }

  lemma {:induction false} InsertWithKey<T>(s: seq<T>, x: T, key: T -> int, k: int)
    ensures WithKey(Insert(s, x, key), key, k)
         == WithKey(s, key, k) + (if key(x) == k then [x] else [])
    decreases |s|
  {
    if |s| == 0 || key(s[|s| - 1]) <= key(x) {
      assert (s + [x])[..|s|] == s;
      if |s| > 0 && key(s[|s| - 1]) == k && key(x) == k {
      }
    } else {
      var init := s[..|s| - 1];
      var last := s[|s| - 1];
      InsertWithKey(init, x, key, k);
      var t := Insert(init, x, key);
      assert (t + [last])[..|t|] == t;
    }
  }

  lemma {:induction false} InsertSumBy<T>(s: seq<T>, x: T, key: T -> int, f: T -> int)
    ensures SumBy(Insert(s, x, key), f) == SumBy(s, f) + f(x)
    decreases |s|
  {
    if |s| == 0 || key(s[|s| - 1]) <= key(x) {
      assert (s + [x])[..|s|] == s;
    } else {
      var init := s[..|s| - 1];
      InsertSumBy(init, x, key, f);
      var t := Insert(init, x, key);
      assert (t + [s[|s| - 1]])[..|t|] == t;
    }
  }

  /** Stable ascending sort by `key`. */
  function SortBy<T>(s: seq<T>, key: T -> int): (r: seq<T>)
    ensures |r| == |s|
    ensures multiset(r) == multiset(s)
    ensures SortedBy(r, key)
    ensures forall k :: WithKey(r, key, k) == WithKey(s, key, k)
    decreases |s|
  {
    if |s| == 0 then []
    else
      var init := s[..|s| - 1];
      var last := s[|s| - 1];
      assert s == init + [last];
      var sorted := SortBy(init, key);
      InsertMultiset(sorted, last, key);
      InsertSorted(sorted, last, key);
      assert forall k :: WithKey(Insert(sorted, last, key), key, k)
                       == WithKey(sorted, key, k) + (if key(last) == k then [last] else []) by {
        forall k
          ensures WithKey(Insert(sorted, last, key), key, k)
               == WithKey(sorted, key, k) + (if key(last) == k then [last] else [])
        {
          InsertWithKey(sorted, last, key, k);
        }
      }
      Insert(sorted, last, key)
  }

  /** Sorting does not change a sum over the elements. */
  lemma {:induction false} SortBySumBy<T>(s: seq<T>, key: T -> int, f: T -> int)
    ensures SumBy(SortBy(s, key), f) == SumBy(s, f)
    decreases |s|
  {
    if |s| > 0 {
      var init := s[..|s| - 1];
      SortBySumBy(init, key, f);
      InsertSumBy(SortBy(init, key), s[|s| - 1], key, f);
    }
  }

  lemma {:induction false} WithKeyHead<T>(t: seq<T>, key: T -> int)
    requires |t| > 0
    ensures |WithKey(t, key, key(t[0]))| > 0
    ensures WithKey(t, key, key(t[0]))[0] == t[0]
    decreases |t|
  {
    if |t| > 1 {
      var init := t[..|t| - 1];
      assert init[0] == t[0];
      WithKeyHead(init, key);
    }
  }

  /** The head of the sorted sequence has the least key, and among the elements
      with that key it is the first one in the input. */
  lemma SortByHead<T>(s: seq<T>, key: T -> int)
    requires |s| > 0
    ensures SortBy(s, key)[0] in s
    ensures forall x :: x in s ==> key(SortBy(s, key)[0]) <= key(x)
    ensures |WithKey(s, key, key(SortBy(s, key)[0]))| > 0
    ensures SortBy(s, key)[0] == WithKey(s, key, key(SortBy(s, key)[0]))[0]
  {
    var r := SortBy(s, key);
    assert r[0] in multiset(r);
    forall x | x in s
      ensures key(r[0]) <= key(x)
    {
      assert x in multiset(s);
      assert x in multiset(r);
      var j :| 0 <= j < |r| && r[j] == x;
    }
    WithKeyHead(r, key);
  }
}
