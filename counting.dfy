/**
 Counting over finite sequences: the arithmetic that Python's
 `collections.Counter` and pandas' `groupby(...).size()` perform on the
 vote records. A table of counts is a `map<K, nat>`; its key order (the order
 in which a `Counter` first meets each key) is `Distinct`.
 */
module Counting {

  /** Number of positions of `s` that hold `k`. */
  function Occurrences<K(==)>(s: seq<K>, k: K): (n: nat)
    ensures n <= |s|
    ensures n > 0 <==> k in s
  {
    if s == [] then 0
    else
      assert s == s[..|s| - 1] + [s[|s| - 1]];
      Occurrences(s[..|s| - 1], k) + (if s[|s| - 1] == k then 1 else 0)
  }

  /** Appending one element adds one to its own count and nothing elsewhere. */
  lemma OccurrencesAppend<K>(s: seq<K>, x: K, k: K)
    ensures Occurrences(s + [x], k) == Occurrences(s, k) + (if x == k then 1 else 0)
  {
    assert (s + [x])[..|s|] == s;
  }

  /** `Occurrences` is the multiplicity of the sequence read as a multiset. */
  lemma {:induction false} OccurrencesIsMultiplicity<K>(s: seq<K>, k: K)
    ensures Occurrences(s, k) == multiset(s)[k]
  {
    if s != [] {
      OccurrencesIsMultiplicity(s[..|s| - 1], k);
      assert s == s[..|s| - 1] + [s[|s| - 1]];
    }
  }

  /** The positions of `s` that hold `k`. */
  ghost function Positions<K>(s: seq<K>, k: K): set<int>
  {
    set i | 0 <= i < |s| && s[i] == k
  }

  /** `Occurrences` counts positions: it is the size of the set of indices holding `k`. */
  lemma {:induction false} OccurrencesArePositions<K>(s: seq<K>, k: K)
    ensures Occurrences(s, k) == |Positions(s, k)|
  {
    if s != [] {
      var init := s[..|s| - 1];
      OccurrencesArePositions(init, k);
      if s[|s| - 1] == k {
        assert Positions(s, k) == Positions(init, k) + {|s| - 1};
      } else {
        assert Positions(s, k) == Positions(init, k);
      }
    }
  }

  /** `[f(x) for x in s]`. */
  function MapSeq<T, K>(f: T -> K, s: seq<T>): (r: seq<K>)
    ensures |r| == |s| && forall i :: 0 <= i < |s| ==> r[i] == f(s[i])
  {
    seq(|s|, i requires 0 <= i < |s| => f(s[i]))
  }

  /** Taking out the element at `j` takes one copy of it out of the multiset. */
  lemma RemoveAt<T>(s: seq<T>, j: int)
    requires 0 <= j < |s|
    ensures multiset(s[..j] + s[j + 1..]) == multiset(s) - multiset{s[j]}
  {
    assert s == s[..j] + [s[j]] + s[j + 1..];
  }

  lemma MapSeqRemoveAt<T, K>(f: T -> K, s: seq<T>, j: int)
    requires 0 <= j < |s|
    ensures multiset(MapSeq(f, s)) == multiset(MapSeq(f, s[..j] + s[j + 1..])) + multiset{f(s[j])}
  {
    var m := MapSeq(f, s);
    RemoveAt(m, j);
    assert m[..j] + m[j + 1..] == MapSeq(f, s[..j] + s[j + 1..]);
  }

  /** Two permutations of each other stay so once the same element is taken out of both. */
  lemma RemoveMatching<T>(s: seq<T>, s': seq<T>, j: int)
    requires multiset(s) == multiset(s')
    requires s != [] && 0 <= j < |s'| && s'[j] == s[0]
    ensures multiset(s[1..]) == multiset(s'[..j] + s'[j + 1..])
  {
    assert s[..0] + s[1..] == s[1..];
    RemoveAt(s', j);
    RemoveAt(s, 0);
  }

  lemma MapSeqCons<T, K>(f: T -> K, s: seq<T>)
    requires s != []
    ensures multiset(MapSeq(f, s)) == multiset(MapSeq(f, s[1..])) + multiset{f(s[0])}
  {
    assert MapSeq(f, s) == [f(s[0])] + MapSeq(f, s[1..]);
  }

  /** Removing the same element from both sides, at `0` and at `j`. */
  lemma MapSeqRemoveMatching<T, K>(f: T -> K, s: seq<T>, s': seq<T>, j: int)
    requires s != [] && 0 <= j < |s'| && s'[j] == s[0]
    requires multiset(MapSeq(f, s[1..])) == multiset(MapSeq(f, s'[..j] + s'[j + 1..]))
    ensures multiset(MapSeq(f, s)) == multiset(MapSeq(f, s'))
  {
    MapSeqCons(f, s);
    MapSeqRemoveAt(f, s', j);
  }

  /** Reordering the input of a comprehension reorders its output the same way. */
  lemma {:induction false} MapSeqPermutation<T, K>(f: T -> K, s: seq<T>, s': seq<T>)
    requires multiset(s) == multiset(s')
    ensures multiset(MapSeq(f, s)) == multiset(MapSeq(f, s'))
    decreases |s|
  {
    if s == [] {
      assert |s'| == |multiset(s')| == 0;
    } else {
      assert s[0] in multiset(s');
      var j :| 0 <= j < |s'| && s'[j] == s[0];
      var rest := s'[..j] + s'[j + 1..];
      RemoveMatching(s, s', j);
      MapSeqPermutation(f, s[1..], rest);
      MapSeqRemoveMatching(f, s, s', j);
    }
  }

  predicate NoDuplicates<K(==)>(s: seq<K>)
  {
    forall i, j :: 0 <= i < j < |s| ==> s[i] != s[j]
  }

  /** The distinct elements of `s`, each once, in order of first appearance. */
  function Distinct<K(==, !new)>(s: seq<K>): (d: seq<K>)
    ensures NoDuplicates(d)
    ensures forall k :: k in d <==> k in s
  {
    if s == [] then []
    else
      assert s == s[..|s| - 1] + [s[|s| - 1]];
      var d0 := Distinct(s[..|s| - 1]);
      if s[|s| - 1] in d0 then d0 else d0 + [s[|s| - 1]]
  }

  /** What a `Counter` built from `s` holds: every element of `s` with its count. */
  function Tally<K(==, !new)>(s: seq<K>): (m: map<K, nat>)
    ensures forall k :: k in m <==> k in s
    ensures forall k :: k in m ==> 1 <= m[k] <= |s|
  {
    map k | k in s :: Occurrences(s, k)
  }

  /** Sum of the counts of `m` at `keys` (the values of a table read in key order). */
  function SumOver<K(==)>(keys: seq<K>, m: map<K, nat>): nat
    requires forall k :: k in keys ==> k in m
  {
    if keys == [] then 0
    else SumOver(keys[..|keys| - 1], m) + m[keys[|keys| - 1]]
  }

  /** Sum over `keys` of the number of occurrences of each key in `s`. */
  function SumOccurrences<K(==)>(keys: seq<K>, s: seq<K>): nat
  {
    if keys == [] then 0
    else SumOccurrences(keys[..|keys| - 1], s) + Occurrences(s, keys[|keys| - 1])
  }

  /** A table whose every count is an occurrence count sums like those counts. */
  lemma {:induction false} SumOverCounts<K>(keys: seq<K>, m: map<K, nat>, s: seq<K>)
    requires forall k :: k in keys ==> k in m && m[k] == Occurrences(s, k)
    ensures SumOver(keys, m) == SumOccurrences(keys, s)
  {
    if keys != [] {
      SumOverCounts(keys[..|keys| - 1], m, s);
    }
  }

  /** One more element of `s` adds one to the sum exactly when it is one of the keys. */
  lemma {:induction false} SumOccurrencesAppend<K>(keys: seq<K>, s: seq<K>, x: K)
    requires NoDuplicates(keys)
    ensures SumOccurrences(keys, s + [x]) == SumOccurrences(keys, s) + (if x in keys then 1 else 0)
  {
    if keys != [] {
      var init, last := keys[..|keys| - 1], keys[|keys| - 1];
      assert keys == init + [last];
      SumOccurrencesAppend(init, s, x);
      OccurrencesAppend(s, x, last);
      assert x in keys <==> x in init || x == last;
      assert x in init ==> x != last;
    }
  }

  /** Counting `s` under distinct keys that cover it counts every element exactly once. */
  lemma {:induction false} SumOccurrencesPartition<K>(keys: seq<K>, s: seq<K>)
    requires NoDuplicates(keys)
    requires forall x :: x in s ==> x in keys
    ensures SumOccurrences(keys, s) == |s|
  {
    if s == [] {
      SumOccurrencesOfEmpty(keys);
    } else {
      var init, last := s[..|s| - 1], s[|s| - 1];
      assert s == init + [last];
      SumOccurrencesPartition(keys, init);
      SumOccurrencesAppend(keys, init, last);
    }
  }

  lemma {:induction false} SumOccurrencesOfEmpty<K>(keys: seq<K>)
    ensures SumOccurrences(keys, []) == 0
  {
    if keys != [] {
      SumOccurrencesOfEmpty(keys[..|keys| - 1]);
    }
  }

  /** The counts of a `Counter` add up to the length of its input. */
  lemma TallySumsToLength<K(!new)>(s: seq<K>)
    ensures SumOver(Distinct(s), Tally(s)) == |s|
  {
    var t := Tally(s);
    SumOverCounts(Distinct(s), t, s);
    SumOccurrencesPartition(Distinct(s), s);
  }

  /** A `Counter` does not depend on the order of its input. */
  lemma TallyPermutationInvariant<K(!new)>(s: seq<K>, s': seq<K>)
    requires multiset(s) == multiset(s')
    ensures Tally(s) == Tally(s')
  {
    forall k | k in s
      ensures k in s' && Occurrences(s, k) == Occurrences(s', k)
    {
      OccurrencesIsMultiplicity(s, k);
      OccurrencesIsMultiplicity(s', k);
      assert k in multiset(s);
    }
    forall k | k in s'
      ensures k in s
    {
      assert k in multiset(s');
    }
  }

  // ----- pairs: the two margins of a cross-tabulation -----

  function Firsts<A, B>(p: seq<(A, B)>): (r: seq<A>)
    ensures |r| == |p| && forall i :: 0 <= i < |p| ==> r[i] == p[i].0
  {
    seq(|p|, i requires 0 <= i < |p| => p[i].0)
  }

  function Seconds<A, B>(p: seq<(A, B)>): (r: seq<B>)
    ensures |r| == |p| && forall i :: 0 <= i < |p| ==> r[i] == p[i].1
  {
    seq(|p|, i requires 0 <= i < |p| => p[i].1)
  }

  lemma FirstsAppend<A, B>(p: seq<(A, B)>, x: (A, B))
    ensures Firsts(p + [x]) == Firsts(p) + [x.0]
    ensures Seconds(p + [x]) == Seconds(p) + [x.1]
  {
  }

  /** The cells `(a, b)` for every `b` of `bs`: one row of a cross-table. */
  function Row<A, B>(a: A, bs: seq<B>): (r: seq<(A, B)>)
    ensures |r| == |bs| && forall i :: 0 <= i < |bs| ==> r[i] == (a, bs[i])
  {
    seq(|bs|, i requires 0 <= i < |bs| => (a, bs[i]))
  }

  /** The cells `(a, b)` for every `a` of `firsts`: one column of a cross-table. */
  function Column<A, B>(firsts: seq<A>, b: B): (r: seq<(A, B)>)
    ensures |r| == |firsts| && forall i :: 0 <= i < |firsts| ==> r[i] == (firsts[i], b)
  {
    seq(|firsts|, i requires 0 <= i < |firsts| => (firsts[i], b))
  }

  lemma RowNoDuplicates<A, B>(a: A, bs: seq<B>)
    requires NoDuplicates(bs)
    ensures NoDuplicates(Row(a, bs))
  {
  }

  lemma ColumnNoDuplicates<A, B>(firsts: seq<A>, b: B)
    requires NoDuplicates(firsts)
    ensures NoDuplicates(Column(firsts, b))
  {
  }

  /**
   Summing the pair counts of a row over every second component that occurs
   gives the number of pairs whose first component is the row's.
   */
  lemma {:induction false} RowMargin<A, B>(p: seq<(A, B)>, a: A, bs: seq<B>)
    requires NoDuplicates(bs)
    requires forall b :: b in Seconds(p) ==> b in bs
    ensures SumOccurrences(Row(a, bs), p) == Occurrences(Firsts(p), a)
  {
    RowNoDuplicates(a, bs);
    if p == [] {
      SumOccurrencesOfEmpty(Row(a, bs));
    } else {
      var init, last := p[..|p| - 1], p[|p| - 1];
      assert p == init + [last];
      assert Seconds(p) == Seconds(init) + [last.1];
      assert Firsts(p) == Firsts(init) + [last.0];
      RowMargin(init, a, bs);
      SumOccurrencesAppend(Row(a, bs), init, last);
      OccurrencesAppend(Firsts(init), last.0, a);
      assert last.1 in bs;
      assert last in Row(a, bs) <==> last.0 == a;
    }
  }

  /**
   Summing the pair counts of a column over every first component that occurs
   gives the number of pairs whose second component is the column's.
   */
  lemma {:induction false} ColumnMargin<A, B>(p: seq<(A, B)>, firsts: seq<A>, b: B)
    requires NoDuplicates(firsts)
    requires forall a :: a in Firsts(p) ==> a in firsts
    ensures SumOccurrences(Column(firsts, b), p) == Occurrences(Seconds(p), b)
  {
    ColumnNoDuplicates(firsts, b);
    if p == [] {
      SumOccurrencesOfEmpty(Column(firsts, b));
    } else {
      var init, last := p[..|p| - 1], p[|p| - 1];
      assert p == init + [last];
      assert Seconds(p) == Seconds(init) + [last.1];
      assert Firsts(p) == Firsts(init) + [last.0];
      ColumnMargin(init, firsts, b);
      SumOccurrencesAppend(Column(firsts, b), init, last);
      OccurrencesAppend(Seconds(init), last.1, b);
      assert last.0 in firsts;
      assert last in Column(firsts, b) <==> last.1 == b;
    }
  }
}
