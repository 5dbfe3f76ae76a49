/** Sequence combinators shared by the reconciliation engine and the reports:
    the counterparts of JavaScript's Array.prototype.filter, find, reduce (sum)
    and a stable sort, each with the facts the rest of the model relies on. */
module Seqs {
  import opened Types

  /** Array.prototype.filter: the elements satisfying p, in their original order. */
  function Filter<T>(s: seq<T>, p: T -> bool): (r: seq<T>)
    ensures |r| <= |s|
    ensures forall i :: 0 <= i < |r| ==> r[i] in s && p(r[i])
    ensures forall i :: 0 <= i < |s| && p(s[i]) ==> s[i] in r
  {
    if s == [] then []
    else (if p(s[0]) then [s[0]] else []) + Filter(s[1..], p)
  }

  /** r is an order-preserving sublist of s. */
  ghost predicate Sublist<T>(r: seq<T>, s: seq<T>)
    decreases |s|
  {
    if r == [] then true
    else if s == [] then false
    else if r[0] == s[0] then Sublist(r[1..], s[1..])
    else Sublist(r, s[1..])
  }

  lemma {:induction false} FilterIsSublist<T>(s: seq<T>, p: T -> bool)
    ensures Sublist(Filter(s, p), s)
  {
    if s != [] {
      FilterIsSublist(s[1..], p);
      if p(s[0]) {
        assert Filter(s, p) == [s[0]] + Filter(s[1..], p);
        assert Filter(s, p)[1..] == Filter(s[1..], p);
      } else {
        assert Filter(s, p) == Filter(s[1..], p);
        SublistDropHead(Filter(s[1..], p), s);
      }
    }
  }

  /** A sublist of the tail is a sublist of the whole. */
  lemma {:induction false} SublistDropHead<T>(r: seq<T>, s: seq<T>)
    requires s != [] && Sublist(r, s[1..])
    ensures Sublist(r, s)
    decreases |s|, 0
  {
    if r != [] && r[0] == s[0] {
      // Sublist(r, s[1..]) with r[0] == s[0]: r[1..] is a sublist of s[1..] as well.
      SublistTail(r, s[1..]);
    }
  }

  /** Dropping the head of a non-empty sublist keeps it a sublist. */
  lemma {:induction false} SublistTail<T>(r: seq<T>, s: seq<T>)
    requires r != [] && Sublist(r, s)
    ensures Sublist(r[1..], s)
    decreases |s|, 1
  {
    if s != [] {
      if r[0] == s[0] {
        if r[1..] != [] {
          SublistDropHead(r[1..], s);
        }
      } else {
        SublistTail(r, s[1..]);
        if r[1..] != [] {
          SublistDropHead(r[1..], s);
        }
      }
    }
  }

  lemma {:induction false} FilterConcat<T>(a: seq<T>, b: seq<T>, p: T -> bool)
    ensures Filter(a + b, p) == Filter(a, p) + Filter(b, p)
  {
    if a == [] {
      assert a + b == b;
    } else {
      assert (a + b)[0] == a[0];
      assert (a + b)[1..] == a[1..] + b;
      FilterConcat(a[1..], b, p);
    }
  }

  /** Filtering a list none of whose elements is dropped gives the list back. */
  lemma {:induction false} FilterKeepsAll<T>(s: seq<T>, p: T -> bool)
    requires forall i :: 0 <= i < |s| ==> p(s[i])
    ensures Filter(s, p) == s
  {
    if s != [] {
      FilterKeepsAll(s[1..], p);
    }
  }

  lemma {:induction false} FilterIdempotent<T>(s: seq<T>, p: T -> bool)
    ensures Filter(Filter(s, p), p) == Filter(s, p)
  {
    var r := Filter(s, p);
    forall i | 0 <= i < |r| ensures p(r[i]) {
      assert r[i] in r;
    }
    FilterKeepsAll(r, p);
  }

  /** Filtering with a predicate that is implied by the one already applied changes nothing. */
  lemma {:induction false} FilterWeaker<T>(s: seq<T>, p: T -> bool, q: T -> bool)
    requires forall x :: p(x) ==> q(x)
    ensures Filter(Filter(s, p), q) == Filter(s, p)
  {
    var r := Filter(s, p);
    forall i | 0 <= i < |r| ensures q(r[i]) {
      assert r[i] in r;
    }
    FilterKeepsAll(r, q);
  }

  /** The multiplicity of x in the filtered list: all of it when p(x), none otherwise. */
  lemma {:induction false} FilterMultiset<T>(s: seq<T>, p: T -> bool, x: T)
    ensures multiset(Filter(s, p))[x] == if p(x) then multiset(s)[x] else 0
  {
    if s != [] {
      FilterMultiset(s[1..], p, x);
      assert s == [s[0]] + s[1..];
      assert multiset(s) == multiset([s[0]]) + multiset(s[1..]);
    }
  }

  /** Filtering two permutations of each other gives permutations of each other. */
  lemma FilterPermutation<T>(s: seq<T>, t: seq<T>, p: T -> bool)
    requires multiset(s) == multiset(t)
    ensures multiset(Filter(s, p)) == multiset(Filter(t, p))
  {
    forall x ensures multiset(Filter(s, p))[x] == multiset(Filter(t, p))[x] {
      FilterMultiset(s, p, x);
      FilterMultiset(t, p, x);
    }
  }

  /** Array.prototype.find: the first element satisfying p, if any. */
  function Find<T>(s: seq<T>, p: T -> bool): (r: Option<T>)
    ensures r.Some? <==> exists i :: 0 <= i < |s| && p(s[i])
    ensures r.Some? ==> r.value in s && p(r.value)
    ensures r.Some? ==> exists i :: 0 <= i < |s| && s[i] == r.value && forall j :: 0 <= j < i ==> !p(s[j])
  {
    if s == [] then None
    else if p(s[0]) then Some(s[0])
    else
      var r := Find(s[1..], p);
      assert r.Some? ==> exists i :: 0 <= i < |s| && s[i] == r.value && forall j :: 0 <= j < i ==> !p(s[j]) by {
        if r.Some? {
          var i :| 0 <= i < |s[1..]| && s[1..][i] == r.value && forall j :: 0 <= j < i ==> !p(s[1..][j]);
          assert s[i + 1] == r.value;
          assert forall j :: 0 <= j < i + 1 ==> !p(s[j]) by {
            forall j | 0 <= j < i + 1 ensures !p(s[j]) {
              if j > 0 { assert s[j] == s[1..][j - 1]; }
            }
          }
        }
      }
      assert (exists i :: 0 <= i < |s| && p(s[i])) ==> r.Some? by {
        if exists i :: 0 <= i < |s| && p(s[i]) {
          var i :| 0 <= i < |s| && p(s[i]);
          assert i > 0 && s[1..][i - 1] == s[i];
        }
      }
      r
  }

  /** Array.prototype.reduce((acc, x) => acc + f(x), 0). */
  function SumOf<T>(s: seq<T>, f: T -> int): int
  {
    if s == [] then 0 else f(s[0]) + SumOf(s[1..], f)
  }

  lemma {:induction false} SumOfConcat<T>(a: seq<T>, b: seq<T>, f: T -> int)
    ensures SumOf(a + b, f) == SumOf(a, f) + SumOf(b, f)
  {
    if a == [] {
      assert a + b == b;
    } else {
      assert (a + b)[0] == a[0];
      assert (a + b)[1..] == a[1..] + b;
      SumOfConcat(a[1..], b, f);
    }
  }

  /** The running sum of a loop that adds f(s[i]) at step i. */
  lemma SumOfSnoc<T>(s: seq<T>, i: nat, f: T -> int)
    requires i < |s|
    ensures SumOf(s[..i + 1], f) == SumOf(s[..i], f) + f(s[i])
  {
    assert s[..i + 1] == s[..i] + [s[i]];
    SumOfConcat(s[..i], [s[i]], f);
  }

  /** Removing the element at position j takes one copy of it out of the multiset. */
  lemma RemoveAtMultiset<T>(t: seq<T>, j: nat)
    requires j < |t|
    ensures multiset(t[..j] + t[j + 1..]) == multiset(t) - multiset{t[j]}
  {
    assert t == t[..j] + [t[j]] + t[j + 1..];
  }

  /** Removing the element at position j takes its term out of the sum. */
  lemma RemoveAt<T>(t: seq<T>, j: nat, f: T -> int)
    requires j < |t|
    ensures SumOf(t, f) == SumOf(t[..j] + t[j + 1..], f) + f(t[j])
  {
    var a, x, b := t[..j], t[j], t[j + 1..];
    assert t == (a + [x]) + b;
    SumOfConcat(a + [x], b, f);
    SumOfConcat(a, [x], f);
    SumOfConcat(a, b, f);
  }

  /** Summing is independent of the order of the elements. */
  lemma {:induction false} SumOfPermutation<T>(s: seq<T>, t: seq<T>, f: T -> int)
    requires multiset(s) == multiset(t)
    ensures SumOf(s, f) == SumOf(t, f)
    decreases |s|
  {
    if s == [] {
      assert |t| == |multiset(t)| == 0;
    } else {
      var x := s[0];
      assert x in multiset(t);
      var j :| 0 <= j < |t| && t[j] == x;
      RemoveAtMultiset(t, j);
      RemoveAt(t, j, f);
      assert s == [x] + s[1..];
      assert multiset(s[1..]) == multiset(s) - multiset{x};
      SumOfPermutation(s[1..], t[..j] + t[j + 1..], f);
    }
  }

  /** Splitting by p and by its complement q partitions the sum. */
  lemma {:induction false} SumOfPartition<T>(s: seq<T>, p: T -> bool, q: T -> bool, f: T -> int)
    requires forall x :: q(x) == !p(x)
    ensures SumOf(Filter(s, p), f) + SumOf(Filter(s, q), f) == SumOf(s, f)
  {
    if s != [] {
      SumOfPartition(s[1..], p, q, f);
      if p(s[0]) {
        SumOfConcat([s[0]], Filter(s[1..], p), f);
        assert Filter(s, q) == Filter(s[1..], q);
      } else {
        SumOfConcat([s[0]], Filter(s[1..], q), f);
        assert Filter(s, p) == Filter(s[1..], p);
      }
    }
  }

  /** When p holds of exactly the elements one of two exclusive tests a and b holds of, what
      p keeps adds up to what a keeps plus what b keeps. */
  lemma {:induction false} SumOfSplit<T>(s: seq<T>, p: T -> bool, a: T -> bool, b: T -> bool, f: T -> int)
    requires forall x :: p(x) == (a(x) || b(x))
    requires forall x :: !(a(x) && b(x))
    ensures SumOf(Filter(s, p), f) == SumOf(Filter(s, a), f) + SumOf(Filter(s, b), f)
  {
    if s != [] {
      SumOfSplit(s[1..], p, a, b, f);
      SumOfConcat(if p(s[0]) then [s[0]] else [], Filter(s[1..], p), f);
      SumOfConcat(if a(s[0]) then [s[0]] else [], Filter(s[1..], a), f);
      SumOfConcat(if b(s[0]) then [s[0]] else [], Filter(s[1..], b), f);
    }
  }

  /** Filtering twice is filtering once by both tests. */
  lemma {:induction false} FilterOfFilter<T>(s: seq<T>, p: T -> bool, q: T -> bool, pq: T -> bool)
    requires forall x :: pq(x) == (p(x) && q(x))
    ensures Filter(Filter(s, p), q) == Filter(s, pq)
  {
    if s != [] {
      FilterOfFilter(s[1..], p, q, pq);
      FilterConcat(if p(s[0]) then [s[0]] else [], Filter(s[1..], p), q);
    }
  }

  /** Filter depends only on which elements a test keeps. */
  lemma {:induction false} FilterSameTest<T>(s: seq<T>, p: T -> bool, q: T -> bool)
    requires forall x :: p(x) == q(x)
    ensures Filter(s, p) == Filter(s, q)
  {
    if s != [] {
      FilterSameTest(s[1..], p, q);
    }
  }

  /** The running total of a loop that adds f(s[i]) at step i when p(s[i]) holds. */
  lemma FilterSumSnoc<T>(s: seq<T>, i: nat, p: T -> bool, f: T -> int)
    requires i < |s|
    ensures SumOf(Filter(s[..i + 1], p), f) == SumOf(Filter(s[..i], p), f) + (if p(s[i]) then f(s[i]) else 0)
  {
    assert s[..i + 1] == s[..i] + [s[i]];
    FilterConcat(s[..i], [s[i]], p);
    SumOfConcat(Filter(s[..i], p), Filter([s[i]], p), f);
  }

  function KeyIs<T, K(==)>(key: T -> K, k: K): T -> bool
  {
    (x: T) => key(x) == k
  }

  function KeyIn<T, K(==)>(key: T -> K, ks: seq<K>): T -> bool
  {
    (x: T) => key(x) in ks
  }

  /** Grouping by a key: the group totals over a list of distinct keys add up to the total
      of the elements whose key is in the list. */
  lemma {:induction false} SumByKeys<T, K>(s: seq<T>, key: T -> K, ks: seq<K>, f: T -> int, g: K -> int)
    requires NoRepeats(ks)
    requires forall k :: g(k) == SumOf(Filter(s, KeyIs(key, k)), f)
    ensures SumOf(ks, g) == SumOf(Filter(s, KeyIn(key, ks)), f)
  {
    if ks == [] {
      FilterDropsAll(s, KeyIn(key, ks));
    } else {
      SumByKeys(s, key, ks[1..], f, g);
      SumOfSplit(s, KeyIn(key, ks), KeyIs(key, ks[0]), KeyIn(key, ks[1..]), f);
    }
  }

  /** The image of a list under a function, element by element. */
  function Map<A, B>(s: seq<A>, g: A -> B): (r: seq<B>)
    ensures |r| == |s| && forall i :: 0 <= i < |s| ==> r[i] == g(s[i])
  {
    seq(|s|, i requires 0 <= i < |s| => g(s[i]))
  }

  /** Summing the images is summing the composed function over the original list. */
  lemma {:induction false} SumOfMap<A, B>(s: seq<A>, g: A -> B, f: B -> int, h: A -> int)
    requires forall x :: h(x) == f(g(x))
    ensures SumOf(Map(s, g), f) == SumOf(s, h)
  {
    if s != [] {
      SumOfMap(s[1..], g, f, h);
      assert Map(s, g)[1..] == Map(s[1..], g);
    }
  }

  /** Every element of the list has a key at least as large as every later one. */
  predicate SortedDesc<T>(s: seq<T>, key: T -> int)
  {
    forall i, j :: 0 <= i < j < |s| ==> key(s[i]) >= key(s[j])
  }

  /** Inserts x in front of the first element whose key is not larger than x's:
      an element that came earlier in the input stays ahead of later ties. */
  function InsertDesc<T>(x: T, s: seq<T>, key: T -> int): (r: seq<T>)
    requires SortedDesc(s, key)
    ensures SortedDesc(r, key)
    ensures multiset(r) == multiset(s) + multiset{x}
    ensures |r| == |s| + 1
  {
    if s == [] then [x]
    else if key(s[0]) <= key(x) then
      SortedCons(x, s, key);
      [x] + s
    else
      var t := InsertDesc(x, s[1..], key);
      assert s == [s[0]] + s[1..];
      assert SortedDesc(s[1..], key);
      HeadBoundsInsert(x, s, t, key);
      SortedCons(s[0], t, key);
      [s[0]] + t
  }

  /** The first element of a sorted list bounds whatever is inserted into its tail after it. */
  lemma HeadBoundsInsert<T>(x: T, s: seq<T>, t: seq<T>, key: T -> int)
    requires s != [] && SortedDesc(s, key) && key(s[0]) > key(x)
    requires multiset(t) == multiset(s[1..]) + multiset{x}
    ensures forall k :: 0 <= k < |t| ==> key(s[0]) >= key(t[k])
  {
    forall k | 0 <= k < |t| ensures key(s[0]) >= key(t[k]) {
      assert t[k] in multiset(t);
      if t[k] != x {
        assert t[k] in multiset(s[1..]);
        var m :| 0 <= m < |s[1..]| && s[1..][m] == t[k];
        assert s[m + 1] == t[k];
      }
    }
  }

  lemma SortedCons<T>(a: T, t: seq<T>, key: T -> int)
    requires SortedDesc(t, key)
    requires forall k :: 0 <= k < |t| ==> key(a) >= key(t[k])
    ensures SortedDesc([a] + t, key)
  {
    var r := [a] + t;
    forall i, j | 0 <= i < j < |r| ensures key(r[i]) >= key(r[j]) {
      assert r[j] == t[j - 1];
      if i > 0 { assert r[i] == t[i - 1]; }
    }
  }

  /** Array.prototype.sort with the comparator (a, b) => key(b) - key(a):
      descending by key, stable on ties (insertion sort). */
  function SortDesc<T>(s: seq<T>, key: T -> int): (r: seq<T>)
    ensures SortedDesc(r, key)
    ensures multiset(r) == multiset(s)
    ensures |r| == |s|
  {
    if s == [] then []
    else
      assert s == [s[0]] + s[1..];
      InsertDesc(s[0], SortDesc(s[1..], key), key)
  }

  /** No element occurs twice. */
  predicate NoRepeats<T(==)>(s: seq<T>)
  {
    forall i, j :: 0 <= i < j < |s| ==> s[i] != s[j]
  }

  /** Pushing an element that is not there yet keeps a list free of repeats. */
  lemma PushFresh<T>(s: seq<T>, x: T)
    requires NoRepeats(s) && x !in s
    ensures NoRepeats(s + [x])
  {
  }

  predicate DistinctKeys<T, K(==)>(s: seq<T>, key: T -> K)
  {
    forall i, j :: 0 <= i < j < |s| ==> key(s[i]) != key(s[j])
  }

  /** In a list with distinct keys each element occurs at most once. */
  lemma {:induction false} DistinctKeysOccurOnce<T, K>(s: seq<T>, key: T -> K, x: T)
    requires DistinctKeys(s, key)
    ensures multiset(s)[x] <= 1
  {
    if s != [] {
      DistinctKeysOccurOnce(s[1..], key, x);
      assert s == [s[0]] + s[1..];
      assert multiset(s) == multiset([s[0]]) + multiset(s[1..]);
      if s[0] == x {
        assert x !in s[1..];
      }
    }
  }

  /** An element found at two positions occurs at least twice. */
  lemma TwoPositions<T>(s: seq<T>, i: nat, j: nat)
    requires i < j < |s| && s[i] == s[j]
    ensures multiset(s)[s[i]] >= 2
  {
    assert s == s[..j] + [s[j]] + s[j + 1..];
    assert s[i] in s[..j];
    assert multiset(s) == multiset(s[..j]) + multiset([s[j]]) + multiset(s[j + 1..]);
  }

  /** A permutation of a list with distinct keys has distinct keys. */
  lemma PermutationKeepsDistinctKeys<T, K>(s: seq<T>, t: seq<T>, key: T -> K)
    requires multiset(s) == multiset(t) && DistinctKeys(s, key)
    ensures DistinctKeys(t, key)
  {
    forall i, j | 0 <= i < j < |t| ensures key(t[i]) != key(t[j]) {
      if key(t[i]) == key(t[j]) {
        assert t[i] in multiset(s) && t[j] in multiset(s);
        var a :| 0 <= a < |s| && s[a] == t[i];
        var b :| 0 <= b < |s| && s[b] == t[j];
        assert a == b;
        TwoPositions(t, i, j);
        DistinctKeysOccurOnce(s, key, t[i]);
        assert false;
      }
    }
  }
  /** Filtering a list none of whose elements satisfies p gives the empty list. */
  lemma {:induction false} FilterDropsAll<T>(s: seq<T>, p: T -> bool)
    requires forall i :: 0 <= i < |s| ==> !p(s[i])
    ensures Filter(s, p) == []
  {
    if s != [] {
      FilterDropsAll(s[1..], p);
    }
  }

  lemma DistinctKeysCons<T, K>(x: T, s: seq<T>, key: T -> K)
    requires DistinctKeys(s, key)
    requires forall i :: 0 <= i < |s| ==> key(s[i]) != key(x)
    ensures DistinctKeys([x] + s, key)
  {
    var r := [x] + s;
    forall i, j | 0 <= i < j < |r| ensures key(r[i]) != key(r[j]) {
      assert r[j] == s[j - 1];
      if i > 0 { assert r[i] == s[i - 1]; }
    }
  }

  lemma DistinctKeysConcat<T, K>(a: seq<T>, b: seq<T>, key: T -> K)
    requires DistinctKeys(a, key) && DistinctKeys(b, key)
    requires forall i, j :: 0 <= i < |a| && 0 <= j < |b| ==> key(a[i]) != key(b[j])
    ensures DistinctKeys(a + b, key)
  {
    var r := a + b;
    forall i, j | 0 <= i < j < |r| ensures key(r[i]) != key(r[j]) {
      if j < |a| {
        assert r[i] == a[i] && r[j] == a[j];
      } else if i < |a| {
        assert r[i] == a[i] && r[j] == b[j - |a|];
      } else {
        assert r[i] == b[i - |a|] && r[j] == b[j - |a|];
      }
    }
  }

  /** Filtering keeps keys distinct. */
  lemma {:induction false} FilterKeepsDistinctKeys<T, K>(s: seq<T>, p: T -> bool, key: T -> K)
    requires DistinctKeys(s, key)
    ensures DistinctKeys(Filter(s, p), key)
  {
    if s != [] {
      var rest := Filter(s[1..], p);
      assert DistinctKeys(s[1..], key) by {
        forall i, j | 0 <= i < j < |s[1..]| ensures key(s[1..][i]) != key(s[1..][j]) {
          assert s[1..][i] == s[i + 1] && s[1..][j] == s[j + 1];
        }
      }
      FilterKeepsDistinctKeys(s[1..], p, key);
      if p(s[0]) {
        forall i | 0 <= i < |rest| ensures key(rest[i]) != key(s[0]) {
          assert rest[i] in s[1..];
          var m :| 0 <= m < |s[1..]| && s[1..][m] == rest[i];
          assert s[m + 1] == rest[i];
        }
        DistinctKeysCons(s[0], rest, key);
      }
    }
  }
}
