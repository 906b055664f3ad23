/** Insertion-ordered string-keyed maps, grouping and counting.

    A JavaScript `Map` (and a plain object whose keys are not integer-like)
    iterates its keys in insertion order; such a map is modelled as the
    sequence of its entries. */
module Grouping {
  import opened Wrappers
  import opened Seqs

  /** The keys of a map, in iteration order. */
  function Keys<V>(m: seq<(string, V)>): (ks: seq<string>)
    ensures |ks| == |m|
    ensures forall i :: 0 <= i < |m| ==> ks[i] == m[i].0
  {
    seq(|m|, i requires 0 <= i < |m| => m[i].0)
  }

  /** The values of a map, in iteration order (`Array.from(m.values())`). */
  function Values<V>(m: seq<(string, V)>): (vs: seq<V>)
    ensures |vs| == |m|
    ensures forall i :: 0 <= i < |m| ==> vs[i] == m[i].1
  {
    seq(|m|, i requires 0 <= i < |m| => m[i].1)
  }

  predicate DistinctKeys<V>(m: seq<(string, V)>) {
    forall i, j :: 0 <= i < j < |m| ==> m[i].0 != m[j].0
  }

  /** The position of key `k`, if it is present. */
  function IndexOfKey<V>(m: seq<(string, V)>, k: string): (r: Option<nat>)
    ensures r.Some? ==> r.value < |m| && m[r.value].0 == k
    ensures r.None? <==> k !in Keys(m)
    decreases |m|
  {
    if |m| == 0 then None
    else if m[|m| - 1].0 == k then Some(|m| - 1)
    else
      var r := IndexOfKey(m[..|m| - 1], k);
      assert Keys(m) == Keys(m[..|m| - 1]) + [m[|m| - 1].0];
      r
  }

  /** `m.get(k)` / `m[k]`. */
  function Lookup<V>(m: seq<(string, V)>, k: string): Option<V> {
    match IndexOfKey(m, k)
    case Some(i) => Some(m[i].1)
    case None => None
  }

  lemma LookupAt<V>(m: seq<(string, V)>, i: nat)
    requires DistinctKeys(m) && i < |m|
    ensures Lookup(m, m[i].0) == Some(m[i].1)
  {
    var r := IndexOfKey(m, m[i].0);
    assert m[i].0 in Keys(m);
  }

  /** The position of a key depends only on the keys. */
  lemma {:induction false} SameKeysIndex<V, W>(a: seq<(string, V)>, b: seq<(string, W)>, k: string)
    requires Keys(a) == Keys(b)
    ensures IndexOfKey(a, k) == IndexOfKey(b, k)
    decreases |a|
  {
    if |a| > 0 {
      assert a[|a| - 1].0 == Keys(a)[|a| - 1] == b[|b| - 1].0;
      assert Keys(a[..|a| - 1]) == Keys(a)[..|a| - 1];
      assert Keys(b[..|b| - 1]) == Keys(b)[..|b| - 1];
      SameKeysIndex(a[..|a| - 1], b[..|b| - 1], k);
    }
  }

  /** `m.set(k, v)` / `m[k] = v`: replaces the value of a present key in place,
      or appends a new entry. */
  function Upsert<V>(m: seq<(string, V)>, k: string, v: V): (r: seq<(string, V)>)
    ensures Keys(r) == if k in Keys(m) then Keys(m) else Keys(m) + [k]
    ensures DistinctKeys(m) ==> DistinctKeys(r)
    ensures forall k' :: Lookup(r, k') == if k' == k then Some(v) else Lookup(m, k')
  {
    match IndexOfKey(m, k)
    case Some(i) =>
      var r := m[i := (k, v)];
      assert forall k' :: k' != k ==> IndexOfKey(r, k') == IndexOfKey(m, k') by {
        forall k' | k' != k ensures IndexOfKey(r, k') == IndexOfKey(m, k') {
          IndexOfKeyUpdate(m, i, v, k');
        }
      }
      IndexOfKeyUpdate(m, i, v, k);
      r
    case None =>
      var r := m + [(k, v)];
      assert forall k' :: k' != k ==> IndexOfKey(r, k') == IndexOfKey(m, k') by {
        forall k' | k' != k ensures IndexOfKey(r, k') == IndexOfKey(m, k') {
          assert r[..|r| - 1] == m;
        }
      }
      r
  }

  lemma {:induction false} IndexOfKeyUpdate<V>(m: seq<(string, V)>, i: nat, v: V, k': string)
    requires i < |m|
    ensures IndexOfKey(m[i := (m[i].0, v)], k') == IndexOfKey(m, k')
    decreases |m|
  {
    var r := m[i := (m[i].0, v)];
    var n := |m| - 1;
    assert r[n].0 == m[n].0;
    if m[n].0 != k' {
      if i < n {
        assert r[..n] == m[..n][i := (m[i].0, v)];
        IndexOfKeyUpdate(m[..n], i, v, k');
      } else {
        assert r[..n] == m[..n];
      }
    }
  }

  // ---------------------------------------------------------------------------
  // Counting maps: `counts[k] = (counts[k] || 0) + d`

  function EntryCount(e: (string, int)): int { e.1 }

  /** The sum of the counts of a counting map. */
  function Total(m: seq<(string, int)>): int {
    SumBy(m, EntryCount)
  }

  /** `counts[k] = (counts[k] || 0) + d`. */
  function AddCount(m: seq<(string, int)>, k: string, d: int): (r: seq<(string, int)>)
    ensures Keys(r) == if k in Keys(m) then Keys(m) else Keys(m) + [k]
    ensures DistinctKeys(m) ==> DistinctKeys(r)
    ensures Total(r) == Total(m) + d
    ensures Lookup(r, k) == Some(Lookup(m, k).GetOr(0) + d)
    ensures forall k' :: k' != k ==> Lookup(r, k') == Lookup(m, k')
  {
    var r := Upsert(m, k, Lookup(m, k).GetOr(0) + d);
    match IndexOfKey(m, k)
    case Some(i) =>
      SumByUpdate(m, i, (k, m[i].1 + d), EntryCount);
      r
    case None =>
      SumByAppend(m, [(k, d)], EntryCount);
      assert SumBy([(k, d)], EntryCount) == d by {
        assert [(k, d)][..0] == [];
      }
      r
  }

  // ---------------------------------------------------------------------------
  // Grouping: `groups.get(key(x)).push(x)`, creating the group on first sight

  /** The key of every element, in order. */
  function KeysOf<T>(s: seq<T>, key: T -> string): (r: seq<string>)
    ensures |r| == |s|
    ensures forall i :: 0 <= i < |s| ==> r[i] == key(s[i])
    decreases |s|
  {
    if |s| == 0 then [] else KeysOf(s[..|s| - 1], key) + [key(s[|s| - 1])]
  }

  /** The elements of `s` whose key is `k`, in their order in `s`. */
  function Members<T>(s: seq<T>, key: T -> string, k: string): seq<T>
    decreases |s|
  {
    if |s| == 0 then []
    else
      var r := Members(s[..|s| - 1], key, k);
      if key(s[|s| - 1]) == k then r + [s[|s| - 1]] else r
  }

  lemma {:induction false} MembersEmpty<T>(s: seq<T>, key: T -> string, k: string)
    ensures Members(s, key, k) == [] <==> k !in KeysOf(s, key)
    decreases |s|
  {
    if |s| > 0 {
      MembersEmpty(s[..|s| - 1], key, k);
    }
  }

  lemma {:induction false} MembersAll<T>(s: seq<T>, key: T -> string, k: string)
    requires forall i :: 0 <= i < |s| ==> key(s[i]) == k
    ensures Members(s, key, k) == s
    decreases |s|
  {
    if |s| > 0 {
      MembersAll(s[..|s| - 1], key, k);
    }
  }

  /** The groups of `init` describe it: distinct keys in order of first
      appearance, each group the non-empty members of its key. */
  ghost predicate GroupsOf<T>(g: seq<(string, seq<T>)>, init: seq<T>, key: T -> string) {
    && DistinctKeys(g)
    && Keys(g) == Dedup(KeysOf(init, key))
    && (forall i :: 0 <= i < |g| ==> g[i].1 == Members(init, key, g[i].0))
    && (forall i :: 0 <= i < |g| ==> |g[i].1| > 0)
  }

  /** Appending `x` to its key's group (or adding the group) keeps every group
      equal to its key's members. */
  lemma UpsertMembers<T>(s: seq<T>, key: T -> string, g: seq<(string, seq<T>)>)
    requires |s| > 0
    requires GroupsOf(g, s[..|s| - 1], key)
    ensures var x := s[|s| - 1];
      var r := Upsert(g, key(x), Lookup(g, key(x)).GetOr([]) + [x]);
      forall i :: 0 <= i < |r| ==> r[i].1 == Members(s, key, r[i].0)
  {
    var x := s[|s| - 1];
    var r := Upsert(g, key(x), Lookup(g, key(x)).GetOr([]) + [x]);
    forall i | 0 <= i < |r|
      ensures r[i].1 == Members(s, key, r[i].0)
    {
      UpsertMemberAt(s, key, g, r[i].0);
      LookupAt(r, i);
    }
  }

  /** The value the upsert leaves at key `k` is that key's members. */
  lemma UpsertMemberAt<T>(s: seq<T>, key: T -> string, g: seq<(string, seq<T>)>, k: string)
    requires |s| > 0
    requires GroupsOf(g, s[..|s| - 1], key)
    requires k in Keys(Upsert(g, key(s[|s| - 1]), Lookup(g, key(s[|s| - 1])).GetOr([]) + [s[|s| - 1]]))
    ensures var x := s[|s| - 1];
      Lookup(Upsert(g, key(x), Lookup(g, key(x)).GetOr([]) + [x]), k) == Some(Members(s, key, k))
  {
    var init := s[..|s| - 1];
    var x := s[|s| - 1];
    assert Members(s, key, k) == Members(init, key, k) + (if key(x) == k then [x] else []);
    GroupLookup(g, init, key, k);
  }

  /** In a grouping, looking a key up gives its members, and `[]` stands for
      a missing key's (empty) members. */
  lemma GroupLookup<T>(g: seq<(string, seq<T>)>, init: seq<T>, key: T -> string, k: string)
    requires GroupsOf(g, init, key)
    ensures Lookup(g, k).GetOr([]) == Members(init, key, k)
    ensures k in Keys(g) <==> Lookup(g, k).Some?
  {
    if k in Keys(g) {
      var j :| 0 <= j < |g| && g[j].0 == k;
      LookupAt(g, j);
    } else {
      MembersEmpty(init, key, k);
    }
  }

  /** Groups of a sequence are never empty. */
  lemma GroupsNonEmpty<T>(s: seq<T>, key: T -> string, r: seq<(string, seq<T>)>)
    requires Keys(r) == Dedup(KeysOf(s, key))
    requires forall i :: 0 <= i < |r| ==> r[i].1 == Members(s, key, r[i].0)
    ensures forall i :: 0 <= i < |r| ==> |r[i].1| > 0
  {
    forall i | 0 <= i < |r|
      ensures |r[i].1| > 0
    {
      var k := r[i].0;
      assert k in Keys(r);
      MembersEmpty(s, key, k);
      assert k in Dedup(KeysOf(s, key));
    }
  }

  /** Groups the elements of `s` by key: one group per distinct key, in order of
      first appearance, each holding the elements with that key in their
      original order. */
  function GroupBy<T>(s: seq<T>, key: T -> string): (g: seq<(string, seq<T>)>)
    ensures DistinctKeys(g)
    ensures Keys(g) == Dedup(KeysOf(s, key))
    ensures forall i :: 0 <= i < |g| ==> g[i].1 == Members(s, key, g[i].0)
    ensures forall i :: 0 <= i < |g| ==> |g[i].1| > 0
    decreases |s|
  {
    if |s| == 0 then []
    else
      var init := s[..|s| - 1];
      var x := s[|s| - 1];
      var g := GroupBy(init, key);
      var r := Upsert(g, key(x), Lookup(g, key(x)).GetOr([]) + [x]);
      assert KeysOf(s, key) == KeysOf(init, key) + [key(x)];
      UpsertMembers(s, key, g);
      GroupsNonEmpty(s, key, r);
      r
  }

  lemma SingleKey<V>(m: seq<(string, V)>, k: string)
    requires Keys(m) == [k]
    ensures m == [(k, m[0].1)]
  {
    assert m[0].0 == Keys(m)[0];
  }

  /** Fewer elements never carry more distinct keys. */
  lemma DistinctKeysSubset<T>(a: seq<T>, b: seq<T>, key: T -> string)
    requires forall x :: x in a ==> x in b
    ensures |Dedup(KeysOf(a, key))| <= |Dedup(KeysOf(b, key))|
  {
    var ka := KeysOf(a, key);
    var kb := KeysOf(b, key);
    forall k | k in Dedup(ka)
      ensures k in Dedup(kb)
    {
      var i :| 0 <= i < |ka| && ka[i] == k;
      assert a[i] in b;
      var j :| 0 <= j < |b| && b[j] == a[i];
      assert kb[j] == k;
    }
    NoDupSubsetLength(Dedup(ka), Dedup(kb));
  }

  lemma ConstantKeys<T>(s: seq<T>, key: T -> string, k: string)
    requires |s| > 0
    requires forall i :: 0 <= i < |s| ==> key(s[i]) == k
    ensures Dedup(KeysOf(s, key)) == [k]
  {
    var ks := KeysOf(s, key);
    forall i | 0 <= i < |ks|
      ensures ks[i] == k
    {
      assert ks[i] == key(s[i]);
    }
    DedupConstant(ks, k);
  }

  lemma OneKeyGroupKeys<T>(s: seq<T>, key: T -> string, k: string)
    requires |s| > 0
    requires forall i :: 0 <= i < |s| ==> key(s[i]) == k
    ensures Keys(GroupBy(s, key)) == [k]
  {
    ConstantKeys(s, key, k);
  }

  lemma OneKeyGroup<T>(s: seq<T>, key: T -> string, k: string)
    requires Keys(GroupBy(s, key)) == [k]
    requires Members(s, key, k) == s
    ensures GroupBy(s, key) == [(k, s)]
  {
    var g := GroupBy(s, key);
    assert g[0].0 == Keys(g)[0];
    SingleKey(g, k);
  }

  /** Elements that all share one key form a single group holding all of them. */
  lemma GroupByOneKey<T>(s: seq<T>, key: T -> string, k: string)
    requires |s| > 0
    requires forall i :: 0 <= i < |s| ==> key(s[i]) == k
    ensures GroupBy(s, key) == [(k, s)]
  {
    OneKeyGroupKeys(s, key, k);
    MembersAll(s, key, k);
    OneKeyGroup(s, key, k);
  }

  /** The sum of `f` over all elements of all groups. */
  function GroupSum<T>(g: seq<(string, seq<T>)>, f: T -> int): int
    decreases |g|
  {
    if |g| == 0 then 0 else GroupSum(g[..|g| - 1], f) + SumBy(g[|g| - 1].1, f)
  }

  lemma {:induction false} GroupSumUpdate<T>(g: seq<(string, seq<T>)>, i: nat, xs: seq<T>, f: T -> int)
    requires i < |g|
    ensures GroupSum(g[i := (g[i].0, xs)], f) == GroupSum(g, f) - SumBy(g[i].1, f) + SumBy(xs, f)
    decreases |g|
  {
    var r := g[i := (g[i].0, xs)];
    if i < |g| - 1 {
      assert r[..|r| - 1] == g[..|g| - 1][i := (g[i].0, xs)];
      GroupSumUpdate(g[..|g| - 1], i, xs, f);
    } else {
      assert r[..|r| - 1] == g[..|g| - 1];
    }
  }

  lemma GroupByStep<T>(s: seq<T>, key: T -> string)
    requires |s| > 0
    ensures var g := GroupBy(s[..|s| - 1], key);
            GroupBy(s, key) == Upsert(g, key(s[|s| - 1]), Lookup(g, key(s[|s| - 1])).GetOr([]) + [s[|s| - 1]])
  {
  }

  /** Adding `x` to its group adds `f(x)` to the sum over the groups. */
  lemma AddToGroupSum<T>(g: seq<(string, seq<T>)>, k: string, x: T, f: T -> int)
    requires DistinctKeys(g)
    ensures GroupSum(Upsert(g, k, Lookup(g, k).GetOr([]) + [x]), f) == GroupSum(g, f) + f(x)
  {
    assert SumBy([x], f) == f(x) by {
      assert [x][..0] == [];
    }
    match IndexOfKey(g, k)
    case Some(i) =>
      LookupAt(g, i);
      GroupSumUpdate(g, i, g[i].1 + [x], f);
      SumByAppend(g[i].1, [x], f);
    case None =>
      var r := g + [(k, [x])];
      assert r[..|r| - 1] == g;
  }

  /** Grouping neither loses nor duplicates an element: a sum over the groups
      equals the sum over the input. */
  lemma {:induction false} GroupBySum<T>(s: seq<T>, key: T -> string, f: T -> int)
    ensures GroupSum(GroupBy(s, key), f) == SumBy(s, f)
    decreases |s|
  {
    if |s| > 0 {
      var init := s[..|s| - 1];
      var x := s[|s| - 1];
      GroupBySum(init, key, f);
      GroupByStep(s, key);
      AddToGroupSum(GroupBy(init, key), key(x), x, f);
    }
  }

  function One<T>(x: T): int { 1 }

  lemma {:induction false} SumByOne<T>(s: seq<T>)
    ensures SumBy(s, One) == |s|
    decreases |s|
  {
    if |s| > 0 {
      SumByOne(s[..|s| - 1]);
    }
  }

  /** Grouping keeps every element: the group sizes add up to the input length. */
  lemma GroupBySizes<T>(s: seq<T>, key: T -> string)
    ensures GroupSum(GroupBy(s, key), One) == |s|
  {
    GroupBySum(s, key, One);
    SumByOne(s);
  }

  // ---------------------------------------------------------------------------
  // "Most used": `Object.entries(m).reduce((a, b) => m[a[0]] > m[b[0]] ? a : b, ['', 0])[0]`

  /** `m[a] > m[b]`, where a missing key reads as `undefined` and every
      comparison with `undefined` is false. */
  predicate GreaterAt(m: seq<(string, int)>, a: string, b: string) {
    var va := Lookup(m, a);
    var vb := Lookup(m, b);
    va.Some? && vb.Some? && va.value > vb.value
  }

  /** The reduction over the entries from position `i` on, with accumulator key `acc`. */
  function PickFrom(m: seq<(string, int)>, i: nat, acc: string): string
    decreases |m| - i
  {
    if i >= |m| then acc
    else PickFrom(m, i + 1, if GreaterAt(m, acc, m[i].0) then acc else m[i].0)
  }

  /** The key with the greatest count; on ties the later key in iteration order;
      `""` for an empty map. */
  function MostUsed(m: seq<(string, int)>): string {
    PickFrom(m, 0, "")
  }

  /** Position `j` holds a greatest count, and every later entry is strictly smaller. */
  ghost predicate IsLastMax(m: seq<(string, int)>, j: int) {
    && 0 <= j < |m|
    && (forall i :: 0 <= i < |m| ==> m[i].1 <= m[j].1)
    && (forall i :: j < i < |m| ==> m[i].1 < m[j].1)
  }

  /** The position the reduction from `i` on ends at, starting from the
      entry at `j`. */
  function BestFrom(m: seq<(string, int)>, i: nat, j: nat): (b: nat)
    requires j < |m|
    ensures b < |m|
    decreases |m| - i
  {
    if i >= |m| then j else BestFrom(m, i + 1, if m[j].1 > m[i].1 then j else i)
  }

  /** The entry the reduction ends at is a last greatest one. */
  lemma {:induction false} BestFromIsLastMax(m: seq<(string, int)>, i: nat, j: nat)
    requires j < i <= |m|
    requires forall k :: 0 <= k < i ==> m[k].1 <= m[j].1
    requires forall k :: j < k < i ==> m[k].1 < m[j].1
    ensures IsLastMax(m, BestFrom(m, i, j))
    decreases |m| - i
  {
    if i == |m| {
      assert IsLastMax(m, j);
    } else if m[j].1 > m[i].1 {
      BestFromIsLastMax(m, i + 1, j);
    } else {
      BestFromIsLastMax(m, i + 1, i);
    }
  }

  /** With distinct keys, the key comparison of the reduction follows the
      counts, so the reduction picks the key of that entry. */
  lemma {:induction false} PickFromFollowsBest(m: seq<(string, int)>, i: nat, j: nat)
    requires DistinctKeys(m)
    requires j < |m|
    ensures PickFrom(m, i, m[j].0) == m[BestFrom(m, i, j)].0
    decreases |m| - i
  {
    if i < |m| {
      LookupAt(m, j);
      LookupAt(m, i);
      if m[j].1 > m[i].1 {
        assert GreaterAt(m, m[j].0, m[i].0);
        PickFromFollowsBest(m, i + 1, j);
      } else {
        assert !GreaterAt(m, m[j].0, m[i].0);
        PickFromFollowsBest(m, i + 1, i);
      }
    }
  }

  lemma PickFromBest(m: seq<(string, int)>, i: nat, j: nat)
    requires DistinctKeys(m)
    requires j < i <= |m|
    requires forall k :: 0 <= k < i ==> m[k].1 <= m[j].1
    requires forall k :: j < k < i ==> m[k].1 < m[j].1
    ensures IsLastMax(m, BestFrom(m, i, j)) && PickFrom(m, i, m[j].0) == m[BestFrom(m, i, j)].0
  {
    BestFromIsLastMax(m, i, j);
    PickFromFollowsBest(m, i, j);
  }

  /** The "most used" pick is `""` exactly when the map is empty; otherwise it is
      a key whose count is at least every other count, and every key after it in
      iteration order has a strictly smaller count. */
  lemma MostUsedSpec(m: seq<(string, int)>)
    requires DistinctKeys(m)
    requires "" !in Keys(m)
    ensures MostUsed(m) == "" <==> |m| == 0
    ensures |m| > 0 ==> exists j :: IsLastMax(m, j) && MostUsed(m) == m[j].0
  {
    if |m| > 0 {
      assert !GreaterAt(m, "", m[0].0);
      PickFromBest(m, 1, 0);
    }
  }
}
