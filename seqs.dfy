/**
 * The array operations the services build on: `Array.prototype.filter`,
 * insertion-ordered de-duplication (a JavaScript `Set` read back with
 * `Array.from`), and the stable `Array.prototype.sort` keyed on an integer.
 */
module Seqs {

  /** `a` can be obtained from `b` by deleting elements; the order of what is kept is unchanged. */
  ghost predicate IsSubsequence<T>(a: seq<T>, b: seq<T>)
    decreases |b|
  {
    || a == []
    || (b != [] && ((a[0] == b[0] && IsSubsequence(a[1..], b[1..])) || IsSubsequence(a, b[1..])))
  }

  lemma {:induction false} SubsequenceReflexive<T>(s: seq<T>)
    ensures IsSubsequence(s, s)
    decreases |s|
  {
    if s != [] {
      SubsequenceReflexive(s[1..]);
    }
  }

  lemma {:induction false} SubsequenceTransitive<T>(a: seq<T>, b: seq<T>, c: seq<T>)
    requires IsSubsequence(a, b) && IsSubsequence(b, c)
    ensures IsSubsequence(a, c)
    decreases |c|
  {
    if a != [] {
      assert b != [] && c != [];
      if b[0] == c[0] && IsSubsequence(b[1..], c[1..]) {
        if a[0] == b[0] && IsSubsequence(a[1..], b[1..]) {
          SubsequenceTransitive(a[1..], b[1..], c[1..]);
        } else {
          SubsequenceTransitive(a, b[1..], c[1..]);
          SubsequenceCons(a, c[0], c[1..]);
          assert [c[0]] + c[1..] == c;
        }
      } else {
        SubsequenceTransitive(a, b, c[1..]);
        SubsequenceCons(a, c[0], c[1..]);
        assert [c[0]] + c[1..] == c;
      }
    }
  }

  /** Skipping one more element of the longer sequence keeps the relation. */
  lemma SubsequenceCons<T>(a: seq<T>, x: T, c: seq<T>)
    requires IsSubsequence(a, c)
    ensures IsSubsequence(a, [x] + c)
  {
    assert ([x] + c)[1..] == c;
  }

  /** `Array.prototype.filter`: the elements of `s` satisfying `p`, in their order in `s`. */
  function Filter<T(!new)>(s: seq<T>, p: T -> bool): (r: seq<T>)
    ensures |r| <= |s|
    decreases |s|
  {
    if s == [] then []
    else
      var rest := Filter(s[1..], p);
      if p(s[0]) then [s[0]] + rest else rest
  }

  lemma {:induction false} FilterAppend<T(!new)>(a: seq<T>, b: seq<T>, p: T -> bool)
    ensures Filter(a + b, p) == Filter(a, p) + Filter(b, p)
    decreases |a|
  {
    if a == [] {
      assert a + b == b;
    } else {
      assert (a + b)[1..] == a[1..] + b;
      FilterAppend(a[1..], b, p);
    }
  }

  /** A filter that rejects nothing is the identity. */
  lemma {:induction false} FilterKeepsAll<T(!new)>(s: seq<T>, p: T -> bool)
    requires forall i :: 0 <= i < |s| ==> p(s[i])
    ensures Filter(s, p) == s
    decreases |s|
  {
    if s != [] {
      FilterKeepsAll(s[1..], p);
    }
  }

  /** `r` keeps exactly the elements of `s` that satisfy `p`, each as often as in `s`, in the order of `s`. */
  ghost predicate SelectedBy<T(!new)>(r: seq<T>, s: seq<T>, p: T -> bool)
  {
    && IsSubsequence(r, s)
    && (forall x :: x in r <==> x in s && p(x))
    && (forall x :: multiset(r)[x] == if p(x) then multiset(s)[x] else 0)
  }

  /** Cutting a sequence and joining the two parts gives it back. */
  lemma PrefixJoin<T>(s: seq<T>, i: nat)
    requires i <= |s|
    ensures s[..i] + s[i..] == s
  {
  }

  lemma AppendAssoc<T>(a: seq<T>, b: seq<T>, c: seq<T>)
    ensures a + (b + c) == a + b + c
  {
  }

  /** `filter` keeps exactly the elements that pass, each as often as in `s`, in the order of `s`. */
  lemma {:induction false} FilterSelects<T(!new)>(s: seq<T>, p: T -> bool)
    ensures SelectedBy(Filter(s, p), s, p)
    decreases |s|
  {
    if s != [] {
      var x, rest := s[0], s[1..];
      FilterSelects(rest, p);
      var kept := Filter(rest, p);
      assert s == [x] + rest;
      if p(x) {
        assert ([x] + kept)[1..] == kept;
        assert Filter(s, p) == [x] + kept;
      } else {
        assert Filter(s, p) == kept;
        SubsequenceCons(kept, x, rest);
      }
    }
  }

  /** A sequence selects itself by any predicate all its elements satisfy. */
  lemma SelectedByAll<T(!new)>(s: seq<T>, p: T -> bool)
    requires forall x :: x in s ==> p(x)
    ensures SelectedBy(s, s, p)
  {
    SubsequenceReflexive(s);
    forall x | !p(x) ensures multiset(s)[x] == 0 { }
  }

  /** Selection depends only on which elements the predicate accepts. */
  lemma SelectedByEquivalent<T(!new)>(r: seq<T>, s: seq<T>, p: T -> bool, q: T -> bool)
    requires SelectedBy(r, s, p)
    requires forall x :: p(x) == q(x)
    ensures SelectedBy(r, s, q)
  {
  }

  /** Selecting by `p` and then by `q` selects by their conjunction `pq`. */
  lemma SelectedByCompose<T(!new)>(s: seq<T>, r1: seq<T>, r2: seq<T>, p: T -> bool, q: T -> bool, pq: T -> bool)
    requires SelectedBy(r1, s, p) && SelectedBy(r2, r1, q)
    requires forall x :: pq(x) == (p(x) && q(x))
    ensures SelectedBy(r2, s, pq)
  {
    SubsequenceTransitive(r2, r1, s);
  }

  /** Every element occurs at most once. */
  predicate NoDuplicates<T(==)>(s: seq<T>)
  {
    forall i, j :: 0 <= i < j < |s| ==> s[i] != s[j]
  }

  /** The position of the first occurrence of `x` in `s`. */
  function IndexOf<T(==)>(s: seq<T>, x: T): (i: nat)
    requires x in s
    ensures i < |s| && s[i] == x
    ensures forall j :: 0 <= j < i ==> s[j] != x
  {
    if s[0] == x then 0 else 1 + IndexOf(s[1..], x)
  }

  lemma IndexOfExtended<T>(s: seq<T>, t: seq<T>, x: T)
    requires x in s
    ensures x in s + t && IndexOf(s + t, x) == IndexOf(s, x)
  {
    var k, m := IndexOf(s, x), IndexOf(s + t, x);
    assert (s + t)[k] == x;
    assert m <= k;
    assert s[m] == (s + t)[m];
  }

  /**
   * The distinct elements of `s`, in the order of their first occurrence: what
   * adding every element of `s` to a JavaScript `Set` and reading it back with
   * `Array.from` gives.
   */
  function Dedup<T(==,!new)>(s: seq<T>): (r: seq<T>)
    ensures forall x :: x in r <==> x in s
    ensures NoDuplicates(r)
    decreases |s|
  {
    if s == [] then []
    else
      var d := Dedup(s[..|s| - 1]);
      assert s == s[..|s| - 1] + [s[|s| - 1]];
      if s[|s| - 1] in d then d else d + [s[|s| - 1]]
  }

  /** One more element: the `Set.add` step that the loops in the components perform. */
  lemma DedupSnoc<T(!new)>(s: seq<T>, x: T)
    ensures Dedup(s + [x]) == if x in Dedup(s) then Dedup(s) else Dedup(s) + [x]
  {
    assert (s + [x])[..|s + [x]| - 1] == s;
  }

  /** The distinct elements come out in the order in which they first occur in `s`. */
  lemma {:induction false} DedupFirstOccurrenceOrder<T(!new)>(s: seq<T>)
    ensures forall i, j :: 0 <= i < j < |Dedup(s)| ==> IndexOf(s, Dedup(s)[i]) < IndexOf(s, Dedup(s)[j])
    decreases |s|
  {
    if s != [] {
      var init, x := s[..|s| - 1], s[|s| - 1];
      assert s == init + [x];
      DedupFirstOccurrenceOrder(init);
      var d := Dedup(init);
      forall y | y in d
        ensures IndexOf(s, y) == IndexOf(init, y) < |init|
      {
        IndexOfExtended(init, [x], y);
      }
      if x !in d {
        assert IndexOf(s, x) == |init|;
      }
    }
  }

  /** `s` is ordered by `key`, largest first. */
  predicate SortedDesc<T>(s: seq<T>, key: T -> int)
  {
    forall i, j :: 0 <= i < j < |s| ==> key(s[i]) >= key(s[j])
  }

  /** The predicate "has key `k`", one value per `k` so that filters by it can be compared. */
  function HasKey<T>(key: T -> int, k: int): T -> bool
  {
    x => key(x) == k
  }

  /** Places `x` in front of the first element whose key is not larger, so that `x` precedes its equals. */
  function InsertDesc<T(!new)>(x: T, s: seq<T>, key: T -> int): (r: seq<T>)
    requires SortedDesc(s, key)
    ensures SortedDesc(r, key)
    ensures multiset(r) == multiset(s) + multiset{x}
    ensures forall j :: 0 <= j < |r| ==> key(r[j]) <= key(x) || (s != [] && key(r[j]) <= key(s[0]))
    decreases |s|
  {
    if s == [] || key(s[0]) <= key(x) then
      SortedCons(x, s, key);
      [x] + s
    else
      var s' := s[1..];
      assert s == [s[0]] + s';
      var r' := InsertDesc(x, s', key);
      SortedCons(s[0], r', key);
      assert multiset([s[0]] + r') == multiset{s[0]} + multiset(r');
      [s[0]] + r'
  }

  /** An element no smaller than the first of a sorted sequence can go in front of it. */
  lemma SortedCons<T>(x: T, s: seq<T>, key: T -> int)
    requires SortedDesc(s, key)
    requires s == [] || key(x) >= key(s[0])
    ensures SortedDesc([x] + s, key)
  {
    forall i, j | 0 <= i < j < |[x] + s|
      ensures key(([x] + s)[i]) >= key(([x] + s)[j])
    {
      if i == 0 && j > 1 {
        assert key(s[0]) >= key(s[j - 1]);
      }
    }
  }

  /**
   * A stable sort, largest key first: the ordering `Array.prototype.sort` gives
   * with the comparator `(a, b) => key(b) - key(a)`.
   */
  function SortDesc<T(!new)>(s: seq<T>, key: T -> int): (r: seq<T>)
    ensures SortedDesc(r, key)
    ensures multiset(r) == multiset(s)
    ensures |r| == |s|
    decreases |s|
  {
    if s == [] then []
    else
      assert s == [s[0]] + s[1..];
      InsertDesc(s[0], SortDesc(s[1..], key), key)
  }

  /** `s.map(g).filter(...)` where `g` gives `null` exactly off `p`: `g` of each element `p` keeps, in order. */
  function FilterMap<T, U>(s: seq<T>, p: T -> bool, g: T -> U): (r: seq<U>)
    ensures |r| <= |s|
    decreases |s|
  {
    if s == [] then [] else (if p(s[0]) then [g(s[0])] else []) + FilterMap(s[1..], p, g)
  }

  /** `s.map(g)`. */
  function MapSeq<T, U>(s: seq<T>, g: T -> U): (r: seq<U>)
    ensures |r| == |s| && forall i :: 0 <= i < |s| ==> r[i] == g(s[i])
  {
    seq(|s|, i requires 0 <= i < |s| => g(s[i]))
  }

  /** Dropping the rejected elements and mapping the rest is mapping `Filter(s, p)`. */
  lemma {:induction false} FilterMapIsMapOfFilter<T(!new), U>(s: seq<T>, p: T -> bool, g: T -> U)
    ensures FilterMap(s, p, g) == MapSeq(Filter(s, p), g)
    decreases |s|
  {
    if s != [] {
      var x, rest := s[0], s[1..];
      FilterMapIsMapOfFilter(rest, p, g);
      if p(x) {
        var kept := Filter(rest, p);
        assert Filter(s, p) == [x] + kept;
        assert MapSeq([x] + kept, g) == [g(x)] + MapSeq(kept, g);
      }
    }
  }

  lemma FilterCons<T(!new)>(x: T, s: seq<T>, p: T -> bool)
    ensures Filter([x] + s, p) == (if p(x) then [x] else []) + Filter(s, p)
  {
    assert ([x] + s)[1..] == s;
  }

  lemma {:induction false} InsertDescStable<T(!new)>(x: T, s: seq<T>, key: T -> int, k: int)
    requires SortedDesc(s, key)
    ensures Filter(InsertDesc(x, s, key), HasKey(key, k)) == Filter([x] + s, HasKey(key, k))
    decreases |s|
  {
    var p := HasKey(key, k);
    if s != [] && key(s[0]) > key(x) {
      var s' := s[1..];
      var ins' := InsertDesc(x, s', key);
      assert InsertDesc(x, s, key) == [s[0]] + ins';
      assert s == [s[0]] + s';
      InsertDescStable(x, s', key, k);
      FilterCons(s[0], ins', p);
      FilterCons(x, s', p);
      FilterCons(x, s, p);
      FilterCons(s[0], s', p);
      if p(x) {
        // `s[0]` has a larger key than `x`, so it is not among `x`'s equals.
        assert !p(s[0]);
        assert Filter(InsertDesc(x, s, key), p) == Filter(ins', p) == [x] + Filter(s', p);
        assert Filter(s, p) == Filter(s', p);
      } else {
        assert Filter(ins', p) == Filter(s', p);
        assert Filter([x] + s, p) == Filter(s, p);
      }
    }
  }

  /** Stability: among the elements with any one key, the sorted order is the input order. */
  lemma {:induction false} SortDescStable<T(!new)>(s: seq<T>, key: T -> int, k: int)
    ensures Filter(SortDesc(s, key), HasKey(key, k)) == Filter(s, HasKey(key, k))
    decreases |s|
  {
    if s != [] {
      SortDescStable(s[1..], key, k);
      InsertDescStable(s[0], SortDesc(s[1..], key), key, k);
      assert ([s[0]] + SortDesc(s[1..], key))[1..] == SortDesc(s[1..], key);
    }
  }
}
