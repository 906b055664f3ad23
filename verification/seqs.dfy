/** Order-preserving filters, de-duplication, sums and concatenation over
    sequences: the `Array.prototype` operations the dashboard code uses. */
module Seqs {

  /** `a` is obtained from `b` by deleting elements, keeping the rest in order. */
  ghost predicate IsSubsequence<T>(a: seq<T>, b: seq<T>)
    decreases |b|
  {
    if |a| == 0 then true
    else if |b| == 0 then false
    else (a[|a| - 1] == b[|b| - 1] && IsSubsequence(a[..|a| - 1], b[..|b| - 1]))
         || IsSubsequence(a, b[..|b| - 1])
  }

  /** A subsequence of a sequence that is non-increasing in `f` is
      non-increasing in `f`, and stays above any lower bound of the whole. */
  lemma {:induction false} SubsequenceKeepsDescending<T>(a: seq<T>, b: seq<T>, f: T -> int, lo: int)
    requires IsSubsequence(a, b)
    requires forall i, j :: 0 <= i < j < |b| ==> f(b[i]) >= f(b[j])
    requires forall j :: 0 <= j < |b| ==> f(b[j]) >= lo
    ensures forall i, j :: 0 <= i < j < |a| ==> f(a[i]) >= f(a[j])
    ensures forall i :: 0 <= i < |a| ==> f(a[i]) >= lo
    decreases |b|
  {
    if |a| > 0 {
      var a', b' := a[..|a| - 1], b[..|b| - 1];
      if a[|a| - 1] == b[|b| - 1] && IsSubsequence(a', b') {
        SubsequenceKeepsDescending(a', b', f, f(b[|b| - 1]));
      } else {
        SubsequenceKeepsDescending(a, b', f, lo);
      }
    }
  }

  lemma {:induction false} IsSubsequenceRefl<T>(s: seq<T>)
    ensures IsSubsequence(s, s)
    decreases |s|
  {
    if |s| > 0 {
      IsSubsequenceRefl(s[..|s| - 1]);
    }
  }

  lemma ConcatAssoc<T>(a: seq<T>, b: seq<T>, c: seq<T>)
    ensures (a + b) + c == a + (b + c)
  {
  }

  /** No element occurs twice. */
  predicate NoDup<T(==)>(s: seq<T>) {
    forall i, j :: 0 <= i < j < |s| ==> s[i] != s[j]
  }

  /** `Array.prototype.filter`: the elements satisfying `p`, in their original
      order and with their original multiplicity. */
  function Filter<T(!new)>(s: seq<T>, p: T -> bool): (r: seq<T>)
    ensures |r| <= |s|
    ensures forall i :: 0 <= i < |r| ==> p(r[i])
    ensures forall x :: x in r <==> x in s && p(x)
    ensures forall x :: multiset(r)[x] == if p(x) then multiset(s)[x] else 0
    ensures IsSubsequence(r, s)
    decreases |s|
  {
    if |s| == 0 then []
    else
      var init := s[..|s| - 1];
      var last := s[|s| - 1];
      assert s == init + [last];
      var r := Filter(init, p);
      if p(last) then
        assert (r + [last])[..|r|] == r;
        r + [last]
      else
        r
  }

  lemma FilterAt<T(!new)>(s: seq<T>, p: T -> bool, j: nat)
    requires j < |Filter(s, p)|
    ensures Filter(s, p)[j] in s && p(Filter(s, p)[j])
  {
    assert Filter(s, p)[j] in Filter(s, p);
  }

  lemma {:induction false} FilterAppend<T(!new)>(a: seq<T>, b: seq<T>, p: T -> bool)
    ensures Filter(a + b, p) == Filter(a, p) + Filter(b, p)
    decreases |b|
  {
    if |b| > 0 {
      var b' := b[..|b| - 1];
      FilterAppend(a, b', p);
      assert (a + b)[..|a + b| - 1] == a + b';
    } else {
      assert a + b == a;
    }
  }

  /** The position of the first occurrence of `x` in `s`. */
  function FirstIndex<T(==)>(s: seq<T>, x: T): (i: nat)
    requires x in s
    ensures i < |s| && s[i] == x && x !in s[..i]
  {
    if s[0] == x then 0
    else
      assert s == [s[0]] + s[1..];
      1 + FirstIndex(s[1..], x)
  }

  /** Only the first occurrence precedes every other one. */
  lemma FirstIndexUnique<T>(s: seq<T>, x: T, i: nat)
    requires i < |s| && s[i] == x && x !in s[..i]
    ensures FirstIndex(s, x) == i
  {
  }

  /** Appending leaves the first occurrence of an element already present. */
  lemma FirstIndexAppend<T>(s: seq<T>, y: T, x: T)
    requires x in s
    ensures FirstIndex(s + [y], x) == FirstIndex(s, x)
  {
    var f := FirstIndex(s, x);
    assert (s + [y])[..f] == s[..f];
    FirstIndexUnique(s + [y], x, f);
  }

  /** Of any two elements of `r`, the earlier one first occurs in `s` before
      the later one does. */
  predicate FirstOccurrenceOrder<T(==)>(r: seq<T>, s: seq<T>)
    requires forall x :: x in r ==> x in s
  {
    forall i, j :: 0 <= i < j < |r| ==> FirstIndex(s, r[i]) < FirstIndex(s, r[j])
  }

  /** The distinct elements of `s` in order of first appearance (JavaScript
      `[...new Set(s)]`). */
  function Dedup<T(==,!new)>(s: seq<T>): (r: seq<T>)
    ensures NoDup(r)
    ensures forall x :: x in r <==> x in s
    ensures |r| <= |s|
    ensures IsSubsequence(r, s)
    ensures FirstOccurrenceOrder(r, s)
    decreases |s|
  {
    if |s| == 0 then []
    else
      var init := s[..|s| - 1];
      var last := s[|s| - 1];
      assert s == init + [last];
      var d := Dedup(init);
      DedupFirstAppend(init, last, d);
      if last in d then d
      else
        assert (d + [last])[..|d|] == d;
        d + [last]
  }

  /** The step of `Dedup`'s order clause: first occurrences in `init` are
      first occurrences in `init + [last]`, and a new `last` comes after all. */
  lemma DedupFirstAppend<T>(init: seq<T>, last: T, d: seq<T>)
    requires forall x :: x in d <==> x in init
    requires forall i, j :: 0 <= i < j < |d| ==> FirstIndex(init, d[i]) < FirstIndex(init, d[j])
    ensures forall i, j :: 0 <= i < j < |d| ==>
      FirstIndex(init + [last], d[i]) < FirstIndex(init + [last], d[j])
    ensures last !in d ==>
      forall i, j :: 0 <= i < j < |d + [last]| ==>
        FirstIndex(init + [last], (d + [last])[i]) < FirstIndex(init + [last], (d + [last])[j])
  {
    var s := init + [last];
    forall i | 0 <= i < |d|
      ensures FirstIndex(s, d[i]) == FirstIndex(init, d[i]) < |init|
    {
      assert d[i] in d;
      FirstIndexAppend(init, last, d[i]);
    }
    if last !in d {
      assert s[..|init|] == init;
      FirstIndexUnique(s, last, |init|);
      var e := d + [last];
      forall i, j | 0 <= i < j < |e|
        ensures FirstIndex(s, e[i]) < FirstIndex(s, e[j])
      {
        if j < |d| {
          assert e[i] == d[i] && e[j] == d[j];
        } else {
          assert e[i] == d[i] && e[j] == last;
        }
      }
    }
  }

  lemma {:induction false} NoDupCardinality<T>(s: seq<T>)
    requires NoDup(s)
    ensures |set x | x in s| == |s|
    decreases |s|
  {
    if |s| > 0 {
      var init := s[..|s| - 1];
      NoDupCardinality(init);
      assert (set x | x in s) == (set x | x in init) + {s[|s| - 1]};
      assert s[|s| - 1] !in init;
    }
  }

  /** A duplicate-free sequence whose elements all occur in another
      duplicate-free sequence is no longer than it. */
  lemma NoDupSubsetLength<T>(a: seq<T>, b: seq<T>)
    requires NoDup(a) && NoDup(b)
    requires forall x :: x in a ==> x in b
    ensures |a| <= |b|
  {
    NoDupCardinality(a);
    NoDupCardinality(b);
    var sa := set x | x in a;
    var sb := set x | x in b;
    assert sa <= sb;
    assert sb == sa + (sb - sa);
    assert |sb| == |sa| + |sb - sa|;
  }

  /** A duplicate-free sequence whose only value is `k` is `[k]`. */
  lemma NoDupConstant<T>(d: seq<T>, k: T)
    requires NoDup(d)
    requires k in d
    requires forall x :: x in d ==> x == k
    ensures d == [k]
  {
    NoDupSubsetLength(d, [k]);
  }

  /** Removing duplicates from a run of one repeated value leaves that value once. */
  lemma DedupConstant<T(!new)>(s: seq<T>, k: T)
    requires |s| > 0
    requires forall i :: 0 <= i < |s| ==> s[i] == k
    ensures Dedup(s) == [k]
  {
    assert s[0] in s;
    NoDupConstant(Dedup(s), k);
  }

  /** The sum of `f` over the elements of `s`. */
  function SumBy<T>(s: seq<T>, f: T -> int): int
    decreases |s|
  {
    if |s| == 0 then 0 else SumBy(s[..|s| - 1], f) + f(s[|s| - 1])
  }

  lemma {:induction false} SumByAppend<T>(a: seq<T>, b: seq<T>, f: T -> int)
    ensures SumBy(a + b, f) == SumBy(a, f) + SumBy(b, f)
    decreases |b|
  {
    if |b| == 0 {
      assert a + b == a;
    } else {
      assert (a + b)[..|a + b| - 1] == a + b[..|b| - 1];
      SumByAppend(a, b[..|b| - 1], f);
    }
  }

  lemma {:induction false} SumByUpdate<T>(s: seq<T>, i: nat, y: T, f: T -> int)
    requires i < |s|
    ensures SumBy(s[i := y], f) == SumBy(s, f) - f(s[i]) + f(y)
    decreases |s|
  {
    var t := s[i := y];
    assert t[..|t| - 1] == if i == |s| - 1 then s[..|s| - 1] else s[..|s| - 1][i := y];
    if i < |s| - 1 {
      SumByUpdate(s[..|s| - 1], i, y, f);
    }
  }
}
