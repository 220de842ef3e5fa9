/** Helpers over sequences that the aggregation of fills is built from:
    sums of a weight, filtering by a key, the keys of a sequence in
    first-seen order (the iteration order of an insertion-ordered
    dictionary), and the facts that make grouping by key a partition. */
module Seqs {

  /** No value occurs twice in s. */
  predicate NoDuplicates<K(==)>(s: seq<K>) {
    forall i, j :: 0 <= i < j < |s| ==> s[i] != s[j]
  }

  /** The sum of w over the elements of s. */
  function Sum<T>(s: seq<T>, w: T -> int): int {
    if s == [] then 0 else Sum(s[..|s| - 1], w) + w(s[|s| - 1])
  }

  /** The sum of w over the elements of s whose key is k. */
  function SumAt<T, K(==)>(s: seq<T>, key: T -> K, k: K, w: T -> int): int {
    if s == [] then 0
    else SumAt(s[..|s| - 1], key, k, w) + (if key(s[|s| - 1]) == k then w(s[|s| - 1]) else 0)
  }

  /** The elements of s whose key is k, in their original order. */
  function Filter<T, K(==)>(s: seq<T>, key: T -> K, k: K): (r: seq<T>)
    ensures |r| <= |s|
    ensures forall x :: x in r ==> x in s && key(x) == k
    ensures forall i :: 0 <= i < |s| && key(s[i]) == k ==> s[i] in r
  {
    if s == [] then []
    else
      var p := s[..|s| - 1];
      var r' := Filter(p, key, k);
      assert forall i :: 0 <= i < |p| ==> p[i] == s[i];
      r' + (if key(s[|s| - 1]) == k then [s[|s| - 1]] else [])
  }

  /** The keys that occur in s, each once, in the order of their first occurrence. */
  function FirstSeen<T, K(==)>(s: seq<T>, key: T -> K): (r: seq<K>)
    ensures NoDuplicates(r)
    ensures forall i :: 0 <= i < |s| ==> key(s[i]) in r
    ensures forall k :: k in r ==> exists i :: 0 <= i < |s| && key(s[i]) == k
  {
    if s == [] then []
    else
      var p := s[..|s| - 1];
      var r' := FirstSeen(p, key);
      assert forall i :: 0 <= i < |p| ==> p[i] == s[i];
      if key(s[|s| - 1]) in r' then r' else r' + [key(s[|s| - 1])]
  }

  /** Where the key of s[i] stands among the first-seen keys. */
  lemma {:induction false} FirstSeenIndex<T, K>(s: seq<T>, key: T -> K, i: nat) returns (a: nat)
    requires i < |s|
    ensures a < |FirstSeen(s, key)| && FirstSeen(s, key)[a] == key(s[i])
  {
    var r := FirstSeen(s, key);
    assert key(s[i]) in r;
    a :| 0 <= a < |r| && r[a] == key(s[i]);
  }

  /** A first-seen key is the key of some element. */
  lemma {:induction false} FirstSeenWitness<T, K>(s: seq<T>, key: T -> K, a: nat) returns (i: nat)
    requires a < |FirstSeen(s, key)|
    ensures i < |s| && key(s[i]) == FirstSeen(s, key)[a]
  {
    var r := FirstSeen(s, key);
    assert r[a] in r;
    i :| 0 <= i < |s| && key(s[i]) == r[a];
  }

  /** The position of the first element of s whose key is k, or |s| if there is none. */
  function FirstIndex<T, K(==)>(s: seq<T>, key: T -> K, k: K): (n: nat)
    ensures n <= |s|
    ensures n < |s| ==> key(s[n]) == k
    ensures forall i :: 0 <= i < n ==> key(s[i]) != k
  {
    if s == [] then 0
    else if key(s[0]) == k then 0
    else 1 + FirstIndex(s[1..], key, k)
  }

  /** The sum, over the keys ks in order, of the per-key sums of w. */
  function SumOver<T, K(==)>(s: seq<T>, key: T -> K, ks: seq<K>, w: T -> int): int {
    if ks == [] then 0
    else SumOver(s, key, ks[..|ks| - 1], w) + SumAt(s, key, ks[|ks| - 1], w)
  }

  /** The sum of w over the elements of s whose key lies in S. */
  function SumIn<T, K>(s: seq<T>, key: T -> K, S: set<K>, w: T -> int): int {
    if s == [] then 0
    else SumIn(s[..|s| - 1], key, S, w) + (if key(s[|s| - 1]) in S then w(s[|s| - 1]) else 0)
  }

  /** The elements of s whose key lies in S, in their original order. */
  function FilterIn<T, K>(s: seq<T>, key: T -> K, S: set<K>): seq<T> {
    if s == [] then []
    else FilterIn(s[..|s| - 1], key, S) + (if key(s[|s| - 1]) in S then [s[|s| - 1]] else [])
  }

  /** One group per key of ks: the elements of s carrying that key. */
  function GroupsBy<T, K(==)>(s: seq<T>, key: T -> K, ks: seq<K>): (gs: seq<seq<T>>)
    ensures |gs| == |ks|
    ensures forall i :: 0 <= i < |ks| ==> gs[i] == Filter(s, key, ks[i])
  {
    seq(|ks|, i requires 0 <= i < |ks| => Filter(s, key, ks[i]))
  }

  /** The concatenation of the groups gs, in order. */
  function Flatten<T>(gs: seq<seq<T>>): seq<T> {
    if gs == [] then [] else Flatten(gs[..|gs| - 1]) + gs[|gs| - 1]
  }

  /** The position that s[j] takes inside the group of its key. */
  function Rank<T, K(==)>(s: seq<T>, key: T -> K, j: nat): nat
    requires j < |s|
  {
    |Filter(s[..j], key, key(s[j]))|
  }

  // ---------------------------------------------------------------------
  // Unfolding at a prefix

  lemma {:induction false} SumSnoc<T>(s: seq<T>, x: T, w: T -> int)
    ensures Sum(s + [x], w) == Sum(s, w) + w(x)
  {
    assert (s + [x])[..|s|] == s;
  }

  lemma {:induction false} SumAtStep<T, K>(s: seq<T>, key: T -> K, k: K, w: T -> int, i: nat)
    requires i < |s|
    ensures SumAt(s[..i + 1], key, k, w) == SumAt(s[..i], key, k, w) + (if key(s[i]) == k then w(s[i]) else 0)
  {
    assert s[..i + 1][..i] == s[..i];
  }

  lemma {:induction false} FilterStep<T, K>(s: seq<T>, key: T -> K, k: K, i: nat)
    requires i < |s|
    ensures Filter(s[..i + 1], key, k) == Filter(s[..i], key, k) + (if key(s[i]) == k then [s[i]] else [])
  {
    assert s[..i + 1][..i] == s[..i];
  }

  lemma {:induction false} FirstSeenStep<T, K>(s: seq<T>, key: T -> K, i: nat)
    requires i < |s|
    ensures var r := FirstSeen(s[..i], key);
      FirstSeen(s[..i + 1], key) == if key(s[i]) in r then r else r + [key(s[i])]
  {
    assert s[..i + 1][..i] == s[..i];
  }

  // ---------------------------------------------------------------------
  // First-seen order

  /** FirstIndex only looks as far as the first match: a key that occurs in
      the prefix s[..m] has the same first index in s as in the prefix. */
  lemma {:induction false} FirstIndexPrefix<T, K>(s: seq<T>, key: T -> K, k: K, m: nat)
    requires m <= |s|
    requires FirstIndex(s[..m], key, k) < m
    ensures FirstIndex(s, key, k) == FirstIndex(s[..m], key, k)
  {
    var q := s[..m];
    var n := FirstIndex(q, key, k);
    var n' := FirstIndex(s, key, k);
    assert key(s[n]) == k by { assert q[n] == s[n]; }
    assert n' <= n;
  }

  /** Every first-seen key occurs in s, so its first index is inside s. */
  lemma {:induction false} FirstSeenIndexInside<T, K>(s: seq<T>, key: T -> K)
    ensures forall a :: 0 <= a < |FirstSeen(s, key)| ==> FirstIndex(s, key, FirstSeen(s, key)[a]) < |s|
  {
    forall a | 0 <= a < |FirstSeen(s, key)|
      ensures FirstIndex(s, key, FirstSeen(s, key)[a]) < |s|
    {
      var i := FirstSeenWitness(s, key, a);
      assert FirstIndex(s, key, FirstSeen(s, key)[a]) <= i;
    }
  }

  /** The keys of FirstSeen come in the order of their first occurrence in s. */
  lemma {:induction false} FirstSeenOrder<T, K>(s: seq<T>, key: T -> K)
    ensures forall a :: 0 <= a < |FirstSeen(s, key)| ==> FirstIndex(s, key, FirstSeen(s, key)[a]) < |s|
    ensures forall a, b :: 0 <= a < b < |FirstSeen(s, key)| ==>
      FirstIndex(s, key, FirstSeen(s, key)[a]) < FirstIndex(s, key, FirstSeen(s, key)[b])
  {
    FirstSeenIndexInside(s, key);
    if s != [] {
      FirstSeenOrder(s[..|s| - 1], key);
      FirstSeenOrderStep(s, key);
    }
  }

  /** Adding an element keeps the first-seen keys in the order of their
      first occurrence. */
  lemma {:induction false} FirstSeenOrderStep<T, K>(s: seq<T>, key: T -> K)
    requires s != []
    requires var p := s[..|s| - 1];
      forall a, b :: 0 <= a < b < |FirstSeen(p, key)| ==>
        FirstIndex(p, key, FirstSeen(p, key)[a]) < FirstIndex(p, key, FirstSeen(p, key)[b])
    ensures forall a, b :: 0 <= a < b < |FirstSeen(s, key)| ==>
      FirstIndex(s, key, FirstSeen(s, key)[a]) < FirstIndex(s, key, FirstSeen(s, key)[b])
  {
    var n := |s| - 1;
    var p := s[..n];
    var r, r' := FirstSeen(s, key), FirstSeen(p, key);
    FirstSeenIndexInside(p, key);
    FirstIndexKeptByExtension(s, key);
    FirstSeenStep(s, key, n);
    assert s[..n + 1] == s;
    if key(s[n]) !in r' {
      NewKeyFirstIndex(s, key);
    }
    forall a, b | 0 <= a < b < |r|
      ensures FirstIndex(s, key, r[a]) < FirstIndex(s, key, r[b])
    {
      assert r[a] == r'[a];
      if b < |r'| {
        assert r[b] == r'[b];
      } else {
        assert FirstIndex(s, key, r[b]) == n;
      }
    }
  }

  /** Keys already seen in s without its last element keep their first
      index when the last element is added. */
  lemma {:induction false} FirstIndexKeptByExtension<T, K>(s: seq<T>, key: T -> K)
    requires s != []
    ensures var r := FirstSeen(s[..|s| - 1], key);
      forall a :: 0 <= a < |r| ==> FirstIndex(s, key, r[a]) == FirstIndex(s[..|s| - 1], key, r[a])
  {
    var n := |s| - 1;
    var r := FirstSeen(s[..n], key);
    forall a | 0 <= a < |r|
      ensures FirstIndex(s, key, r[a]) == FirstIndex(s[..n], key, r[a])
    {
      var i := FirstSeenWitness(s[..n], key, a);
      assert FirstIndex(s[..n], key, r[a]) <= i;
      FirstIndexPrefix(s, key, r[a], n);
    }
  }

  /** A key first seen at the last element has that element's index as its
      first index. */
  lemma {:induction false} NewKeyFirstIndex<T, K>(s: seq<T>, key: T -> K)
    requires s != []
    requires key(s[|s| - 1]) !in FirstSeen(s[..|s| - 1], key)
    ensures FirstIndex(s, key, key(s[|s| - 1])) == |s| - 1
  {
    var n := |s| - 1;
    var p := s[..n];
    forall i | 0 <= i < n
      ensures key(s[i]) != key(s[n])
    {
      assert p[i] == s[i];
    }
  }

  // ---------------------------------------------------------------------
  // Sums over a partition by key

  lemma {:induction false} SumInAdd<T, K>(s: seq<T>, key: T -> K, S: set<K>, k: K, w: T -> int)
    requires k !in S
    ensures SumIn(s, key, S + {k}, w) == SumIn(s, key, S, w) + SumAt(s, key, k, w)
  {
    if s != [] {
      SumInAdd(s[..|s| - 1], key, S, k, w);
    }
  }

  lemma {:induction false} SumInCovering<T, K>(s: seq<T>, key: T -> K, S: set<K>, w: T -> int)
    requires forall i :: 0 <= i < |s| ==> key(s[i]) in S
    ensures SumIn(s, key, S, w) == Sum(s, w)
  {
    if s != [] {
      var p := s[..|s| - 1];
      assert forall i :: 0 <= i < |p| ==> p[i] == s[i];
      SumInCovering(p, key, S, w);
    }
  }

  lemma {:induction false} SumOverDistinct<T, K>(s: seq<T>, key: T -> K, ks: seq<K>, w: T -> int)
    requires NoDuplicates(ks)
    ensures SumOver(s, key, ks, w) == SumIn(s, key, (set k | k in ks), w)
  {
    if ks == [] {
      assert (set k | k in ks) == {};
      SumInEmpty(s, key, w);
    } else {
      var p := ks[..|ks| - 1];
      var last := ks[|ks| - 1];
      SumOverDistinct(s, key, p, w);
      assert (set k | k in ks) == (set k | k in p) + {last};
      assert last !in p;
      SumInAdd(s, key, (set k | k in p), last, w);
    }
  }

  lemma {:induction false} SumInEmpty<T, K>(s: seq<T>, key: T -> K, w: T -> int)
    ensures SumIn(s, key, {}, w) == 0
  {
    if s != [] {
      SumInEmpty(s[..|s| - 1], key, w);
    }
  }

  /** Summing the per-key sums over the first-seen keys gives the total sum:
      grouping by key neither loses nor double-counts any element. */
  lemma {:induction false} SumOverFirstSeen<T, K>(s: seq<T>, key: T -> K, w: T -> int)
    ensures SumOver(s, key, FirstSeen(s, key), w) == Sum(s, w)
  {
    var ks := FirstSeen(s, key);
    SumOverDistinct(s, key, ks, w);
    SumInCovering(s, key, (set k | k in ks), w);
  }

  /** A sequence xs whose i-th element weighs the per-key sum of the i-th key
      sums to SumOver. */
  lemma {:induction false} SumOverPointwise<T, K, U>(s: seq<T>, key: T -> K, ks: seq<K>, w: T -> int, xs: seq<U>, v: U -> int)
    requires |xs| == |ks|
    requires forall i :: 0 <= i < |xs| ==> v(xs[i]) == SumAt(s, key, ks[i], w)
    ensures Sum(xs, v) == SumOver(s, key, ks, w)
  {
    if xs != [] {
      var n := |xs| - 1;
      SumOverPointwise(s, key, ks[..n], w, xs[..n], v);
    }
  }

  lemma {:induction false} SumFilter<T, K>(s: seq<T>, key: T -> K, k: K, w: T -> int)
    ensures Sum(Filter(s, key, k), w) == SumAt(s, key, k, w)
  {
    if s != [] {
      var n := |s| - 1;
      SumFilter(s[..n], key, k, w);
      assert SumAt(s, key, k, w) == SumAt(s[..n], key, k, w) + (if key(s[n]) == k then w(s[n]) else 0);
      if key(s[n]) == k {
        assert Filter(s, key, k) == Filter(s[..n], key, k) + [s[n]];
        SumSnoc(Filter(s[..n], key, k), s[n], w);
      } else {
        assert Filter(s, key, k) == Filter(s[..n], key, k);
      }
    }
  }

  // ---------------------------------------------------------------------
  // Grouping by key is a permutation

  lemma {:induction false} FilterInAdd<T, K>(s: seq<T>, key: T -> K, S: set<K>, k: K)
    requires k !in S
    ensures multiset(FilterIn(s, key, S + {k})) == multiset(FilterIn(s, key, S)) + multiset(Filter(s, key, k))
  {
    if s != [] {
      FilterInAdd(s[..|s| - 1], key, S, k);
    }
  }

  lemma {:induction false} FilterInEmpty<T, K>(s: seq<T>, key: T -> K)
    ensures FilterIn(s, key, {}) == []
  {
    if s != [] {
      FilterInEmpty(s[..|s| - 1], key);
    }
  }

  lemma {:induction false} FilterInCovering<T, K>(s: seq<T>, key: T -> K, S: set<K>)
    requires forall i :: 0 <= i < |s| ==> key(s[i]) in S
    ensures FilterIn(s, key, S) == s
  {
    FilterInCoveringPrefix(s, key, S, |s|);
    assert s[..|s|] == s;
  }

  lemma {:induction false} FilterInCoveringPrefix<T, K>(s: seq<T>, key: T -> K, S: set<K>, m: nat)
    requires m <= |s|
    requires forall i :: 0 <= i < |s| ==> key(s[i]) in S
    ensures FilterIn(s[..m], key, S) == s[..m]
  {
    if m > 0 {
      FilterInCoveringPrefix(s, key, S, m - 1);
      assert s[..m][..m - 1] == s[..m - 1];
      assert FilterIn(s[..m], key, S) == s[..m - 1] + [s[m - 1]];
    }
  }

  lemma {:induction false} FlattenDistinct<T, K>(s: seq<T>, key: T -> K, ks: seq<K>)
    requires NoDuplicates(ks)
    ensures multiset(Flatten(GroupsBy(s, key, ks))) == multiset(FilterIn(s, key, (set k | k in ks)))
  {
    if ks == [] {
      assert (set k | k in ks) == {};
      FilterInEmpty(s, key);
    } else {
      var p := ks[..|ks| - 1];
      var last := ks[|ks| - 1];
      var gs := GroupsBy(s, key, ks);
      assert gs[..|gs| - 1] == GroupsBy(s, key, p);
      FlattenDistinct(s, key, p);
      assert (set k | k in ks) == (set k | k in p) + {last};
      assert last !in p;
      FilterInAdd(s, key, (set k | k in p), last);
    }
  }

  /** Concatenating the groups of the first-seen keys gives back exactly the
      elements of s, each as often as it occurs in s. */
  lemma {:induction false} GroupsArePermutation<T, K>(s: seq<T>, key: T -> K)
    ensures multiset(Flatten(GroupsBy(s, key, FirstSeen(s, key)))) == multiset(s)
  {
    var ks := FirstSeen(s, key);
    FlattenDistinct(s, key, ks);
    FilterInCovering(s, key, (set k | k in ks));
  }

  // ---------------------------------------------------------------------
  // Filtering keeps the original order

  /** Filtering a prefix gives a prefix of the filtered sequence. */
  lemma {:induction false} FilterPrefix<T, K>(s: seq<T>, key: T -> K, k: K, m: nat)
    requires m <= |s|
    ensures var f := Filter(s[..m], key, k);
      |f| <= |Filter(s, key, k)| && Filter(s, key, k)[..|f|] == f
  {
    if m < |s| {
      var n := |s| - 1;
      assert s[..n][..m] == s[..m];
      FilterPrefix(s[..n], key, k, m);
    } else {
      assert s[..m] == s;
    }
  }

  /** Each element is found at its rank inside the group of its key. */
  lemma {:induction false} FilterAtRank<T, K>(s: seq<T>, key: T -> K, j: nat)
    requires j < |s|
    ensures Rank(s, key, j) < |Filter(s, key, key(s[j]))|
    ensures Filter(s, key, key(s[j]))[Rank(s, key, j)] == s[j]
  {
    var k := key(s[j]);
    var f := Filter(s[..j], key, k);
    FilterStep(s, key, k, j);
    assert Filter(s[..j + 1], key, k) == f + [s[j]];
    FilterPrefix(s, key, k, j + 1);
    var g := Filter(s, key, k);
    assert g[..|f| + 1] == f + [s[j]];
    assert g[|f|] == (f + [s[j]])[|f|];
  }

  /** Two elements with the same key keep their relative order inside their
      group. */
  lemma {:induction false} FilterKeepsOrder<T, K>(s: seq<T>, key: T -> K, i: nat, j: nat)
    requires i < j < |s|
    requires key(s[i]) == key(s[j])
    ensures var g := Filter(s, key, key(s[j]));
      && Rank(s, key, i) < Rank(s, key, j) < |g|
      && g[Rank(s, key, i)] == s[i]
      && g[Rank(s, key, j)] == s[j]
  {
    FilterAtRank(s, key, i);
    FilterAtRank(s, key, j);
    RankIncreases(s, key, i, j);
  }

  /** Of two elements with the same key, the later one has the higher rank. */
  lemma {:induction false} RankIncreases<T, K>(s: seq<T>, key: T -> K, i: nat, j: nat)
    requires i < j < |s|
    requires key(s[i]) == key(s[j])
    ensures Rank(s, key, i) < Rank(s, key, j)
  {
    var k := key(s[j]);
    assert Rank(s, key, i) == |Filter(s[..i], key, k)|;
    FilterStep(s, key, k, i);
    var upToI := Filter(s[..i + 1], key, k);
    assert |upToI| == Rank(s, key, i) + 1;
    assert s[..j][..i + 1] == s[..i + 1];
    FilterPrefix(s[..j], key, k, i + 1);
    assert |upToI| <= |Filter(s[..j], key, k)|;
  }

  // ---------------------------------------------------------------------
  // Keys that do not occur, and the head of a group

  /** A key no element carries sums to zero. */
  lemma {:induction false} SumAtAbsent<T, K>(s: seq<T>, key: T -> K, k: K, w: T -> int)
    requires forall i :: 0 <= i < |s| ==> key(s[i]) != k
    ensures SumAt(s, key, k, w) == 0
  {
    if s != [] {
      var p := s[..|s| - 1];
      assert forall i :: 0 <= i < |p| ==> p[i] == s[i];
      SumAtAbsent(p, key, k, w);
    }
  }

  /** m tallies s by key: keys lists the keys of s in first-seen order, and
      m maps exactly those keys to the sum of w over the elements with that
      key. */
  ghost predicate Tallied<T, K(!new)>(s: seq<T>, key: T -> K, w: T -> int, keys: seq<K>, m: map<K, int>) {
    && keys == FirstSeen(s, key)
    && (forall k :: k in m <==> k in keys)
    && forall k :: k in m ==> m[k] == SumAt(s, key, k, w)
  }

  /** Adding the weight of s[i] under its key, inserting the key at zero
      when it is new, turns a tally of s[..i] into a tally of s[..i + 1]. */
  lemma {:induction false} TallyStep<T, K(!new)>(s: seq<T>, key: T -> K, w: T -> int, i: nat,
      keys: seq<K>, m: map<K, int>, keys': seq<K>, m': map<K, int>)
    requires i < |s|
    requires Tallied(s[..i], key, w, keys, m)
    requires keys' == if key(s[i]) in m then keys else keys + [key(s[i])]
    requires m' == m[key(s[i]) := (if key(s[i]) in m then m[key(s[i])] else 0) + w(s[i])]
    ensures Tallied(s[..i + 1], key, w, keys', m')
  {
    TallyAbsent(s, key, w, i, keys, m);
    TallySumsStep(s, key, w, i, m, m');
    TallyKeysStep(s, key, w, i, keys, m, keys', m');
  }

  lemma {:induction false} TallyAbsent<T, K(!new)>(s: seq<T>, key: T -> K, w: T -> int, i: nat, keys: seq<K>, m: map<K, int>)
    requires i < |s|
    requires keys == FirstSeen(s[..i], key)
    requires forall k :: k in m <==> k in keys
    ensures key(s[i]) !in m ==> SumAt(s[..i], key, key(s[i]), w) == 0
  {
    var k := key(s[i]);
    if k !in m {
      assert k !in keys;
      assert forall j :: 0 <= j < i ==> s[..i][j] == s[j];
      SumAtAbsent(s[..i], key, k, w);
    }
  }

  lemma {:induction false} TallyKeysStep<T, K(!new)>(s: seq<T>, key: T -> K, w: T -> int, i: nat,
      keys: seq<K>, m: map<K, int>, keys': seq<K>, m': map<K, int>)
    requires i < |s|
    requires keys == FirstSeen(s[..i], key)
    requires forall k :: k in m <==> k in keys
    requires keys' == if key(s[i]) in m then keys else keys + [key(s[i])]
    requires m' == m[key(s[i]) := (if key(s[i]) in m then m[key(s[i])] else 0) + w(s[i])]
    ensures keys' == FirstSeen(s[..i + 1], key)
    ensures forall k :: k in m' <==> k in keys'
  {
    FirstSeenStep(s, key, i);
    assert key(s[i]) in m <==> key(s[i]) in keys;
  }

  lemma {:induction false} TallySumsStep<T, K(!new)>(s: seq<T>, key: T -> K, w: T -> int, i: nat, m: map<K, int>, m': map<K, int>)
    requires i < |s|
    requires forall k :: k in m ==> m[k] == SumAt(s[..i], key, k, w)
    requires key(s[i]) !in m ==> SumAt(s[..i], key, key(s[i]), w) == 0
    requires m' == m[key(s[i]) := (if key(s[i]) in m then m[key(s[i])] else 0) + w(s[i])]
    ensures forall k :: k in m' ==> m'[k] == SumAt(s[..i + 1], key, k, w)
  {
    forall k | k in m'
      ensures m'[k] == SumAt(s[..i + 1], key, k, w)
    {
      SumAtStep(s, key, k, w, i);
    }
  }

  /** A key no element carries has an empty group. */
  lemma {:induction false} FilterAbsent<T, K>(s: seq<T>, key: T -> K, k: K)
    requires forall i :: 0 <= i < |s| ==> key(s[i]) != k
    ensures Filter(s, key, k) == []
  {
    if s != [] {
      var p := s[..|s| - 1];
      assert forall i :: 0 <= i < |p| ==> p[i] == s[i];
      FilterAbsent(p, key, k);
    }
  }

  /** The group of the a-th first-seen key starts with the first element
      carrying that key. */
  lemma {:induction false} GroupHead<T, K>(s: seq<T>, key: T -> K, a: nat)
    requires a < |FirstSeen(s, key)|
    ensures FirstIndex(s, key, FirstSeen(s, key)[a]) < |s|
    ensures GroupsBy(s, key, FirstSeen(s, key))[a] != []
    ensures GroupsBy(s, key, FirstSeen(s, key))[a][0] == s[FirstIndex(s, key, FirstSeen(s, key)[a])]
  {
    var k := FirstSeen(s, key)[a];
    var j := FirstSeenWitness(s, key, a);
    assert FirstIndex(s, key, k) <= j;
    FilterHeadIsFirst(s, key, k);
  }

  /** The group of a key that occurs in s starts with the first element
      carrying that key. */
  lemma {:induction false} FilterHeadIsFirst<T, K>(s: seq<T>, key: T -> K, k: K)
    requires FirstIndex(s, key, k) < |s|
    ensures Filter(s, key, k) != []
    ensures Filter(s, key, k)[0] == s[FirstIndex(s, key, k)]
  {
    var j := FirstIndex(s, key, k);
    assert forall i :: 0 <= i < j ==> s[..j][i] == s[i];
    FilterAbsent(s[..j], key, k);
    FilterAtRank(s, key, j);
  }
}
