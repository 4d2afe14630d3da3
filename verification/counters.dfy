/** Python's `collections.Counter` as the scripts use it: an insertion-ordered
    list of (key, count) pairs, `most_common(1)`, and the stable descending
    sort of its items. */
module Counters {

  /** Counter items in insertion (first-seen) order. */
  type Counts<K> = seq<(K, nat)>

  /** Number of times `k` occurs in `xs`. */
  function Occurrences<K(==)>(xs: seq<K>, k: K): nat {
    if |xs| == 0 then 0
    else Occurrences(xs[..|xs| - 1], k) + (if xs[|xs| - 1] == k then 1 else 0)
  }

  /** Position of the first occurrence of `k` in `xs`. */
  function FirstIndex<K(==)>(xs: seq<K>, k: K): (i: nat)
    requires k in xs
    ensures i < |xs| && xs[i] == k && k !in xs[..i]
  {
    if xs[0] == k then 0 else
      var i := FirstIndex(xs[1..], k);
      assert xs[..i + 1] == [xs[0]] + xs[1..][..i];
      1 + i
  }

  /** No element appears twice. */
  predicate NoDuplicates<K(==)>(s: seq<K>) {
    forall i, j :: 0 <= i < j < |s| ==> s[i] != s[j]
  }

  /** The keys of a counter, in order. */
  function Keys<K>(t: Counts<K>): seq<K> {
    seq(|t|, i requires 0 <= i < |t| => t[i].0)
  }

  /** `counter[k]`: the count of `k`, 0 when absent. */
  function Lookup<K(==)>(t: Counts<K>, k: K): nat {
    if |t| == 0 then 0 else if t[0].0 == k then t[0].1 else Lookup(t[1..], k)
  }

  /** Sum of all counts. */
  function Total<K>(t: Counts<K>): nat {
    if |t| == 0 then 0 else t[0].1 + Total(t[1..])
  }

  /** `counter[k] += 1`: an existing key keeps its place, a new key goes last. */
  function Bump<K(==)>(t: Counts<K>, k: K): Counts<K> {
    if |t| == 0 then [(k, 1)]
    else if t[0].0 == k then [(k, t[0].1 + 1)] + t[1..]
    else [t[0]] + Bump(t[1..], k)
  }

  lemma KeysCons<K>(a: (K, nat), t: Counts<K>)
    ensures Keys([a] + t) == [a.0] + Keys(t)
  {
  }

  /** Bumping an existing key leaves the key list alone; a new key is appended. */
  lemma {:induction false} BumpKeys<K>(t: Counts<K>, k: K)
    ensures Keys(Bump(t, k)) == if k in Keys(t) then Keys(t) else Keys(t) + [k]
  {
    if |t| > 0 {
      assert t == [t[0]] + t[1..];
      KeysCons(t[0], t[1..]);
      if t[0].0 == k {
        KeysCons((k, t[0].1 + 1), t[1..]);
      } else {
        BumpKeys(t[1..], k);
        KeysCons(t[0], Bump(t[1..], k));
      }
    }
  }

  /** Bumping `k` adds one to the count of `k` and to nothing else. */
  lemma {:induction false} BumpLookup<K>(t: Counts<K>, k: K, k': K)
    ensures Lookup(Bump(t, k), k') == Lookup(t, k') + (if k' == k then 1 else 0)
  {
    if |t| > 0 && t[0].0 != k {
      BumpLookup(t[1..], k, k');
    }
  }

  /** Bumping adds one to the total and keeps every count positive. */
  lemma {:induction false} BumpTotal<K>(t: Counts<K>, k: K)
    ensures Total(Bump(t, k)) == Total(t) + 1
    ensures (forall i :: 0 <= i < |t| ==> t[i].1 >= 1) ==> forall i :: 0 <= i < |Bump(t, k)| ==> Bump(t, k)[i].1 >= 1
  {
    if |t| > 0 && t[0].0 != k {
      BumpTotal(t[1..], k);
      assert (forall i :: 0 <= i < |t| ==> t[i].1 >= 1) ==> forall i :: 0 <= i < |t[1..]| ==> t[1..][i].1 >= 1;
    }
  }

  /** The distinct elements of `xs` in order of first occurrence. */
  function Dedup<K(==)>(xs: seq<K>): seq<K> {
    if |xs| == 0 then []
    else
      var d := Dedup(xs[..|xs| - 1]);
      if xs[|xs| - 1] in xs[..|xs| - 1] then d else d + [xs[|xs| - 1]]
  }

  /** The first occurrence in a prefix stays the first occurrence. */
  lemma FirstIndexPrefix<K>(xs: seq<K>, x: K, k: K)
    requires k in xs
    ensures FirstIndex(xs + [x], k) == FirstIndex(xs, k)
  {
    var i := FirstIndex(xs, k);
    assert (xs + [x])[..i] == xs[..i];
    assert (xs + [x])[..i + 1] == xs[..i + 1];
  }

  /** An element placed right after a prefix free of it is first found there. */
  lemma {:induction false} FirstIndexAfter<K>(p: seq<K>, k: K, rest: seq<K>)
    requires k !in p
    ensures (p + [k] + rest)[|p|] == k
    ensures FirstIndex(p + [k] + rest, k) == |p|
  {
    var s := p + [k] + rest;
    if p != [] {
      assert s[0] == p[0];
      assert s[1..] == p[1..] + [k] + rest;
      FirstIndexAfter(p[1..], k, rest);
    }
  }

  /** `Dedup(xs)` holds exactly the elements of `xs`. */
  lemma {:induction false} DedupMembers<K>(xs: seq<K>)
    ensures forall k :: k in Dedup(xs) <==> k in xs
  {
    if |xs| > 0 {
      DedupMembers(xs[..|xs| - 1]);
      assert xs == xs[..|xs| - 1] + [xs[|xs| - 1]];
    }
  }

  /** The elements of `Dedup(xs)` are elements of `xs`, in order of first occurrence. */
  predicate OrderedByFirst<K(==)>(xs: seq<K>) {
    && (forall k :: k in Dedup(xs) ==> k in xs)
    && (forall i, j :: 0 <= i < j < |Dedup(xs)| ==>
          Dedup(xs)[i] in xs && Dedup(xs)[j] in xs &&
          FirstIndex(xs, Dedup(xs)[i]) < FirstIndex(xs, Dedup(xs)[j]))
  }

  lemma {:induction false} DedupNoDuplicates<K>(xs: seq<K>)
    ensures NoDuplicates(Dedup(xs))
  {
    if |xs| > 0 {
      var p := xs[..|xs| - 1];
      DedupNoDuplicates(p);
      DedupMembers(p);
    }
  }

  lemma {:induction false} DedupOrdered<K>(xs: seq<K>)
    ensures OrderedByFirst(xs)
  {
    DedupMembers(xs);
    if |xs| > 0 {
      DedupOrdered(xs[..|xs| - 1]);
      forall i, j | 0 <= i < j < |Dedup(xs)|
        ensures Dedup(xs)[i] in xs && Dedup(xs)[j] in xs &&
                FirstIndex(xs, Dedup(xs)[i]) < FirstIndex(xs, Dedup(xs)[j])
      {
        OrderStep(xs, i, j);
      }
    }
  }

  /** `Dedup(xs)` holds each element of `xs` exactly once, ordered by first
      occurrence in `xs`. */
  lemma DedupSpec<K>(xs: seq<K>)
    ensures forall k :: k in Dedup(xs) <==> k in xs
    ensures NoDuplicates(Dedup(xs))
    ensures forall i, j :: 0 <= i < j < |Dedup(xs)| ==>
              Dedup(xs)[i] in xs && Dedup(xs)[j] in xs &&
              FirstIndex(xs, Dedup(xs)[i]) < FirstIndex(xs, Dedup(xs)[j])
  {
    DedupMembers(xs);
    DedupNoDuplicates(xs);
    DedupOrdered(xs);
  }

  lemma OrderStep<K>(xs: seq<K>, i: nat, j: nat)
    requires |xs| > 0
    requires OrderedByFirst(xs[..|xs| - 1])
    requires i < j < |Dedup(xs)|
    ensures Dedup(xs)[i] in xs && Dedup(xs)[j] in xs
    ensures FirstIndex(xs, Dedup(xs)[i]) < FirstIndex(xs, Dedup(xs)[j])
  {
    var p := xs[..|xs| - 1];
    var x := xs[|xs| - 1];
    var d := Dedup(p);
    assert xs == p + [x];
    assert Dedup(xs) == if x in p then d else d + [x];
    assert Dedup(xs)[i] == d[i] && d[i] in d;
    FirstIndexPrefix(p, x, d[i]);
    if j < |d| {
      assert Dedup(xs)[j] == d[j] && d[j] in d;
      FirstIndexPrefix(p, x, d[j]);
    } else {
      assert Dedup(xs)[j] == x && x !in p;
      assert xs[..|p|] == p;
    }
  }

  /** `Counter(xs)`: feeding `xs` to the counter in order. */
  function Tally<K(==)>(xs: seq<K>): Counts<K> {
    if |xs| == 0 then [] else Bump(Tally(xs[..|xs| - 1]), xs[|xs| - 1])
  }

  /** Feeding one more value to a counter. */
  lemma TallySnoc<K>(xs: seq<K>, x: K)
    ensures Tally(xs + [x]) == Bump(Tally(xs), x)
  {
    assert (xs + [x])[..|xs|] == xs;
  }

  /** The Counter of `xs` has the distinct elements of `xs` as keys, in order
      of first occurrence, counts every element exactly, and its counts are
      positive and sum to `|xs|`. */
  lemma {:induction false} TallySpec<K>(xs: seq<K>)
    ensures Keys(Tally(xs)) == Dedup(xs)
    ensures forall k :: Lookup(Tally(xs), k) == Occurrences(xs, k)
    ensures forall i :: 0 <= i < |Tally(xs)| ==> Tally(xs)[i].1 >= 1
    ensures Total(Tally(xs)) == |xs|
  {
    if |xs| > 0 {
      var p := xs[..|xs| - 1];
      var x := xs[|xs| - 1];
      TallySpec(p);
      DedupSpec(p);
      BumpKeys(Tally(p), x);
      BumpTotal(Tally(p), x);
      forall k ensures Lookup(Tally(xs), k) == Occurrences(xs, k) {
        BumpLookup(Tally(p), x, k);
      }
    }
  }

  /** `counter.most_common(1)[0]`: CPython computes it as `max(items, key=count)`,
      which keeps the FIRST item of maximal count. Returns its position. */
  function MostCommon<K>(t: Counts<K>): (best: nat)
    requires |t| > 0
    ensures best < |t|
    ensures forall i :: 0 <= i < |t| ==> t[i].1 <= t[best].1
    ensures forall i :: 0 <= i < best ==> t[i].1 < t[best].1
  {
    if |t| == 1 then 0
    else
      var b := MostCommon(t[..|t| - 1]);
      if t[|t| - 1].1 > t[b].1 then |t| - 1 else b
  }

  /** Items with count `c`, in order. */
  function WithCount<K>(t: Counts<K>, c: nat): Counts<K> {
    if |t| == 0 then []
    else (if t[0].1 == c then [t[0]] else []) + WithCount(t[1..], c)
  }

  /** Counts never increase along `t`. */
  predicate NonIncreasing<K>(t: Counts<K>) {
    forall i, j :: 0 <= i < j < |t| ==> t[i].1 >= t[j].1
  }

  /** Inserts `x` before the first item whose count is not larger. */
  function InsertByCount<K>(x: (K, nat), s: Counts<K>): Counts<K> {
    if |s| == 0 then [x]
    else if s[0].1 <= x.1 then [x] + s
    else [s[0]] + InsertByCount(x, s[1..])
  }

  /** `sorted(items, key=count, reverse=True)`. */
  function SortByCountDesc<K>(t: Counts<K>): Counts<K> {
    if |t| == 0 then [] else InsertByCount(t[0], SortByCountDesc(t[1..]))
  }

  lemma {:induction false} InsertByCountOrder<K>(x: (K, nat), s: Counts<K>)
    requires NonIncreasing(s)
    ensures NonIncreasing(InsertByCount(x, s))
    ensures InsertByCount(x, s)[0] == x || (|s| > 0 && InsertByCount(x, s)[0] == s[0])
  {
    if |s| > 0 && s[0].1 > x.1 {
      InsertByCountOrder(x, s[1..]);
      var rest := InsertByCount(x, s[1..]);
      assert rest[0].1 <= s[0].1;
    }
  }

  lemma {:induction false} InsertByCountItems<K>(x: (K, nat), s: Counts<K>)
    ensures multiset(InsertByCount(x, s)) == multiset(s) + multiset{x}
  {
    if |s| > 0 && s[0].1 > x.1 {
      InsertByCountItems(x, s[1..]);
      assert s == [s[0]] + s[1..];
    }
  }

  /** Inserting never reorders items of equal count: `x` lands in front of
      every item that shares its count. */
  lemma {:induction false} InsertByCountStable<K>(x: (K, nat), s: Counts<K>, c: nat)
    ensures WithCount(InsertByCount(x, s), c) == (if x.1 == c then [x] else []) + WithCount(s, c)
  {
    if |s| > 0 && s[0].1 > x.1 {
      InsertByCountStable(x, s[1..], c);
      assert InsertByCount(x, s) == [s[0]] + InsertByCount(x, s[1..]);
    } else if |s| > 0 {
      assert ([x] + s)[1..] == s;
    }
  }

  /** The summary order: counts never increase, the items are those of `t`
      (a permutation), and items with equal counts keep their order in `t`
      (the sort is stable). */
  lemma {:induction false} SortByCountDescSpec<K>(t: Counts<K>)
    ensures NonIncreasing(SortByCountDesc(t))
    ensures multiset(SortByCountDesc(t)) == multiset(t)
    ensures forall c :: WithCount(SortByCountDesc(t), c) == WithCount(t, c)
  {
    if |t| > 0 {
      SortByCountDescSpec(t[1..]);
      InsertByCountOrder(t[0], SortByCountDesc(t[1..]));
      InsertByCountItems(t[0], SortByCountDesc(t[1..]));
      forall c ensures WithCount(SortByCountDesc(t), c) == WithCount(t, c) {
        InsertByCountStable(t[0], SortByCountDesc(t[1..]), c);
      }
      assert t == [t[0]] + t[1..];
    }
  }

  /** Sorting keeps the sum of the counts. */
  lemma {:induction false} SortByCountDescTotal<K>(t: Counts<K>)
    ensures Total(SortByCountDesc(t)) == Total(t)
  {
    if |t| > 0 {
      SortByCountDescTotal(t[1..]);
      InsertByCountTotal(t[0], SortByCountDesc(t[1..]));
    }
  }

  lemma {:induction false} InsertByCountTotal<K>(x: (K, nat), s: Counts<K>)
    ensures Total(InsertByCount(x, s)) == x.1 + Total(s)
  {
    if |s| > 0 && s[0].1 > x.1 {
      InsertByCountTotal(x, s[1..]);
      assert InsertByCount(x, s)[1..] == InsertByCount(x, s[1..]);
    } else if |s| > 0 {
      assert ([x] + s)[1..] == s;
    }
  }

  /** A key that is not there counts 0. */
  lemma {:induction false} LookupAbsent<K>(t: Counts<K>, k: K)
    requires k !in Keys(t)
    ensures Lookup(t, k) == 0
  {
    if |t| > 0 {
      assert Keys(t)[0] == t[0].0;
      assert Keys(t[1..]) == Keys(t)[1..];
      LookupAbsent(t[1..], k);
    }
  }

  /** With distinct keys, `counter[k]` is the count stored at `k`'s entry. */
  lemma {:induction false} LookupAt<K>(t: Counts<K>, j: nat)
    requires j < |t| && NoDuplicates(Keys(t))
    ensures Lookup(t, t[j].0) == t[j].1
  {
    if j > 0 {
      assert Keys(t)[0] != Keys(t)[j];
      assert Keys(t[1..]) == Keys(t)[1..];
      LookupAt(t[1..], j - 1);
    }
  }

  /** `Counter(xs).most_common(1)[0][0]` occurs in `xs` at least as often as
      any other value, and among the values that occur as often it is the
      one seen first. */
  lemma MostCommonFirstSeen<K>(xs: seq<K>)
    requires |xs| > 0
    ensures var t := Tally(xs);
      |t| > 0 && t[MostCommon(t)].0 in xs
    ensures var t := Tally(xs); var top := t[MostCommon(t)].0;
      && (forall k :: Occurrences(xs, k) <= Occurrences(xs, top))
      && (forall k :: k in xs && k != top && Occurrences(xs, k) == Occurrences(xs, top) ==>
            FirstIndex(xs, top) < FirstIndex(xs, k))
  {
    var t := Tally(xs);
    TallySpec(xs);
    DedupSpec(xs);
    assert xs[0] in Dedup(xs);
    assert |Keys(t)| == |t|;
    var w := MostCommon(t);
    var top := t[w].0;
    assert Keys(t)[w] == top;
    LookupAt(t, w);
    forall k ensures Occurrences(xs, k) <= Occurrences(xs, top) {
      if k in xs {
        assert k in Keys(t);
        var j :| 0 <= j < |t| && Keys(t)[j] == k;
        LookupAt(t, j);
      } else {
        assert !(k in Keys(t));
        LookupAbsent(t, k);
      }
    }
    forall k | k in xs && k != top && Occurrences(xs, k) == Occurrences(xs, top)
      ensures FirstIndex(xs, top) < FirstIndex(xs, k)
    {
      assert k in Keys(t);
      var j :| 0 <= j < |t| && Keys(t)[j] == k;
      LookupAt(t, j);
      assert j != w;
      assert !(j < w);
    }
  }
}
