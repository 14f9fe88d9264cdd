/**
 Filtering and stable sorting of sequences, as Python's list comprehensions and
 `sorted(..., key=...)` do them. `StableSort` is an insertion sort; the lemma
 `StableSortIsTheOnlyOne` shows that every order-respecting, stable rearrangement
 of the same sequence is equal to it, so nothing depends on the algorithm.
 */
module Sequences {

  /** The elements of `s` satisfying `p`, in order. */
  function Filter<T>(s: seq<T>, p: T -> bool): seq<T> {
    if |s| == 0 then []
    else if p(s[|s| - 1]) then Filter(s[..|s| - 1], p) + [s[|s| - 1]]
    else Filter(s[..|s| - 1], p)
  }

  /** `f` applied to every element. */
  function Map<A, B>(s: seq<A>, f: A -> B): (r: seq<B>)
    ensures |r| == |s| && forall i :: 0 <= i < |s| ==> r[i] == f(s[i])
  {
    seq(|s|, i requires 0 <= i < |s| => f(s[i]))
  }

  /** `total` is what adding up the terms one after the other comes to. */
  ghost predicate IsSum(terms: seq<real>, total: real) {
    exists c :: SumsUp(c, terms) && c[|terms|] == total
  }

  ghost predicate SumsUp(c: seq<real>, terms: seq<real>) {
    |c| == |terms| + 1 && c[0] == 0.0 && forall k :: 0 <= k < |terms| ==> c[k + 1] == c[k] + terms[k]
  }

  lemma NoTerms()
    ensures IsSum([], 0.0)
  {
    assert SumsUp([0.0], []);
  }

  lemma OneMoreTerm(terms: seq<real>, total: real, x: real)
    requires IsSum(terms, total)
    ensures IsSum(terms + [x], total + x)
  {
    var c :| SumsUp(c, terms) && c[|terms|] == total;
    assert SumsUp(c + [total + x], terms + [x]);
  }

  function And<T>(p: T -> bool, q: T -> bool): T -> bool {
    x => p(x) && q(x)
  }

  // The order laws are stated through `Comparable`, `Chain` and `Tie`, so that a
  // proof instantiates them only where it names one.

  ghost predicate Comparable<T>(le: (T, T) -> bool, a: T, b: T) { le(a, b) || le(b, a) }

  ghost predicate Chain<T>(le: (T, T) -> bool, a: T, b: T, c: T) {
    le(a, b) && le(b, c) ==> le(a, c)
  }

  ghost predicate Tie<T>(le: (T, T) -> bool, a: T, b: T) { le(a, b) && le(b, a) ==> a == b }

  ghost predicate TotalPreorder<T(!new)>(le: (T, T) -> bool) {
    && (forall a, b :: Comparable(le, a, b))
    && (forall a, b, c :: Chain(le, a, b, c))
  }

  ghost predicate Antisymmetric<T(!new)>(le: (T, T) -> bool) {
    forall a, b :: Tie(le, a, b)
  }

  ghost predicate Sorted<T>(s: seq<T>, le: (T, T) -> bool) {
    forall i, j :: 0 <= i < j < |s| ==> le(s[i], s[j])
  }

  /** Puts `x` behind every element of the sorted `s` that is not above it. */
  function Insert<T>(s: seq<T>, x: T, le: (T, T) -> bool): seq<T> {
    if |s| == 0 || le(s[|s| - 1], x) then s + [x]
    else Insert(s[..|s| - 1], x, le) + [s[|s| - 1]]
  }

  function StableSort<T>(s: seq<T>, le: (T, T) -> bool): seq<T> {
    if |s| == 0 then [] else Insert(StableSort(s[..|s| - 1], le), s[|s| - 1], le)
  }

  /** `bisect.bisect_right` on an ascending sequence: the elements before it are at most `x`. */
  function BisectRight(s: seq<int>, x: int): (n: nat)
    ensures n <= |s|
    ensures n < |s| ==> s[n] > x
    ensures n > 0 ==> s[n - 1] <= x
  {
    if |s| == 0 then 0 else if s[|s| - 1] <= x then |s| else BisectRight(s[..|s| - 1], x)
  }

  // ---- Filter -------------------------------------------------------------

  lemma {:induction false} FilterAppend<T>(s: seq<T>, x: T, p: T -> bool)
    ensures Filter(s + [x], p) == if p(x) then Filter(s, p) + [x] else Filter(s, p)
  {
    assert (s + [x])[..|s|] == s;
  }

  lemma {:induction false} FilterConcat<T>(s: seq<T>, t: seq<T>, p: T -> bool)
    ensures Filter(s + t, p) == Filter(s, p) + Filter(t, p)
  {
    if |t| == 0 {
      assert s + t == s;
    } else {
      assert (s + t)[..|s + t| - 1] == s + t[..|t| - 1];
      FilterConcat(s, t[..|t| - 1], p);
    }
  }

  lemma {:induction false} FilterMember<T>(s: seq<T>, p: T -> bool)
    ensures forall x {:trigger x in s} {:trigger x in Filter(s, p)} ::
              x in Filter(s, p) <==> x in s && p(x)
  {
    if |s| > 0 {
      assert s == s[..|s| - 1] + [s[|s| - 1]];
      FilterMember(s[..|s| - 1], p);
    }
  }

  lemma {:induction false} FilterAll<T>(s: seq<T>, p: T -> bool)
    requires forall x :: x in s ==> p(x)
    ensures Filter(s, p) == s
  {
    if |s| > 0 {
      assert s == s[..|s| - 1] + [s[|s| - 1]];
      FilterAll(s[..|s| - 1], p);
    }
  }

  lemma {:induction false} FilterNone<T>(s: seq<T>, p: T -> bool)
    requires forall x :: x in s ==> !p(x)
    ensures Filter(s, p) == []
  {
    if |s| > 0 {
      assert s == s[..|s| - 1] + [s[|s| - 1]];
      FilterNone(s[..|s| - 1], p);
    }
  }

  /** Filtering by `q` and then by `p` is filtering by any `r` that means both. */
  lemma {:induction false} FilterFilter<T>(s: seq<T>, p: T -> bool, q: T -> bool, r: T -> bool)
    requires forall x :: x in s ==> (r(x) <==> p(x) && q(x))
    ensures Filter(Filter(s, q), p) == Filter(s, r)
  {
    if |s| > 0 {
      var init, last := s[..|s| - 1], s[|s| - 1];
      assert s == init + [last];
      FilterFilter(init, p, q, r);
      if q(last) { FilterAppend(Filter(init, q), last, p); }
    }
  }

  lemma FilterSwap<T>(s: seq<T>, p: T -> bool, q: T -> bool)
    ensures Filter(Filter(s, p), q) == Filter(Filter(s, q), p)
  {
    FilterFilter(s, q, p, And(p, q));
    FilterFilter(s, p, q, And(p, q));
  }

  lemma {:induction false} FilterCongruent<T>(s: seq<T>, p: T -> bool, q: T -> bool)
    requires forall x :: x in s ==> (p(x) <==> q(x))
    ensures Filter(s, p) == Filter(s, q)
  {
    if |s| > 0 {
      assert s == s[..|s| - 1] + [s[|s| - 1]];
      FilterCongruent(s[..|s| - 1], p, q);
    }
  }

  /** A filtered part of a sequence of which only the `q` part is known. */
  lemma {:induction false} FilterWithin<T>(s: seq<T>, t: seq<T>, p: T -> bool, q: T -> bool)
    requires Filter(s, q) == Filter(t, q)
    requires forall x :: x in s || x in t ==> p(x) ==> q(x)
    ensures Filter(s, p) == Filter(t, p)
  {
    FilterFilter(s, p, q, p);
    FilterFilter(t, p, q, p);
  }

  lemma FilterSuffix<T>(s: seq<T>, k: nat, p: T -> bool)
    requires k <= |s| && (forall i :: 0 <= i < k ==> !p(s[i])) && forall i :: k <= i < |s| ==> p(s[i])
    ensures Filter(s, p) == s[k..]
  {
    assert s == s[..k] + s[k..];
    FilterConcat(s[..k], s[k..], p);
    FilterNone(s[..k], p);
    FilterAll(s[k..], p);
  }

  lemma FilterPrefix<T>(s: seq<T>, k: nat, p: T -> bool)
    requires k <= |s| && (forall i :: 0 <= i < k ==> p(s[i])) && forall i :: k <= i < |s| ==> !p(s[i])
    ensures Filter(s, p) == s[..k]
  {
    assert s == s[..k] + s[k..];
    FilterConcat(s[..k], s[k..], p);
    FilterAll(s[..k], p);
    FilterNone(s[k..], p);
  }

  /** Where the `i`th selected element comes from. */
  lemma {:induction false} FilterOrigin<T>(s: seq<T>, p: T -> bool, i: nat)
    requires i < |Filter(s, p)|
    ensures exists k :: 0 <= k < |s| && s[k] == Filter(s, p)[i] && p(s[k])
  {
    var init, last := s[..|s| - 1], s[|s| - 1];
    if i < |Filter(init, p)| {
      FilterOrigin(init, p, i);
      var k :| 0 <= k < |init| && init[k] == Filter(init, p)[i] && p(init[k]);
      assert s[k] == init[k];
    } else {
      assert s[|s| - 1] == last;
    }
  }

  lemma {:induction false} FilterSorted<T>(s: seq<T>, p: T -> bool, le: (T, T) -> bool)
    requires Sorted(s, le)
    ensures Sorted(Filter(s, p), le)
  {
    if |s| > 0 {
      var init, last := s[..|s| - 1], s[|s| - 1];
      FilterSorted(init, p, le);
      forall i | 0 <= i < |Filter(init, p)| ensures le(Filter(init, p)[i], last) {
        FilterOrigin(init, p, i);
      }
    }
  }

  // ---- Stable sorting -----------------------------------------------------

  lemma {:induction false} InsertSorted<T(!new)>(s: seq<T>, x: T, le: (T, T) -> bool)
    requires TotalPreorder(le) && Sorted(s, le)
    ensures Sorted(Insert(s, x, le), le)
    ensures multiset(Insert(s, x, le)) == multiset(s) + multiset{x}
  {
    if |s| == 0 {
    } else if le(s[|s| - 1], x) {
      forall i | 0 <= i < |s| ensures le(s[i], x) {
        assert i < |s| - 1 ==> Chain(le, s[i], s[|s| - 1], x);
      }
    } else {
      var init, last := s[..|s| - 1], s[|s| - 1];
      assert s == init + [last];
      InsertSorted(init, x, le);
      var r := Insert(init, x, le);
      forall i | 0 <= i < |r| ensures le(r[i], last) {
        assert r[i] in multiset(r);
        if r[i] == x {
          assert Comparable(le, x, last);
        } else {
          assert r[i] in multiset(init);
          var k :| 0 <= k < |init| && init[k] == r[i];
          assert s[k] == r[i];
        }
      }
    }
  }

  lemma {:induction false} StableSortSorts<T(!new)>(s: seq<T>, le: (T, T) -> bool)
    requires TotalPreorder(le)
    ensures Sorted(StableSort(s, le), le)
    ensures multiset(StableSort(s, le)) == multiset(s)
  {
    if |s| > 0 {
      assert s == s[..|s| - 1] + [s[|s| - 1]];
      StableSortSorts(s[..|s| - 1], le);
      InsertSorted(StableSort(s[..|s| - 1], le), s[|s| - 1], le);
    }
  }

  lemma StableSortMember<T(!new)>(s: seq<T>, le: (T, T) -> bool)
    requires TotalPreorder(le)
    ensures forall x :: x in StableSort(s, le) <==> x in s
  {
    StableSortSorts(s, le);
    forall x ensures x in StableSort(s, le) <==> x in s {
      assert x in StableSort(s, le) <==> x in multiset(StableSort(s, le));
      assert x in s <==> x in multiset(s);
    }
  }

  lemma {:induction false} InsertFilter<T(!new)>(s: seq<T>, x: T, p: T -> bool, le: (T, T) -> bool)
    requires TotalPreorder(le) && Sorted(s, le)
    ensures Filter(Insert(s, x, le), p) == if p(x) then Insert(Filter(s, p), x, le) else Filter(s, p)
  {
    if |s| == 0 || le(s[|s| - 1], x) {
      FilterAppend(s, x, p);
      FilterMember(s, p);
      var f := Filter(s, p);
      if |f| > 0 {
        var b := f[|f| - 1];
        assert b in f;
        var k :| 0 <= k < |s| && s[k] == b;
        assert Comparable(le, b, b);
        assert Chain(le, b, s[|s| - 1], x);
      }
    } else {
      var init, last := s[..|s| - 1], s[|s| - 1];
      InsertFilter(init, x, p, le);
      FilterAppend(Insert(init, x, le), last, p);
      if p(last) {
        var f := Filter(init, p);
        assert (f + [last])[..|f|] == f;
      }
    }
  }

  /** Selecting commutes with stable sorting. */
  lemma {:induction false} SortFilter<T(!new)>(s: seq<T>, p: T -> bool, le: (T, T) -> bool)
    requires TotalPreorder(le)
    ensures Filter(StableSort(s, le), p) == StableSort(Filter(s, p), le)
  {
    if |s| > 0 {
      var init, last := s[..|s| - 1], s[|s| - 1];
      SortFilter(init, p, le);
      StableSortSorts(init, le);
      InsertFilter(StableSort(init, le), last, p, le);
      if p(last) {
        var f := Filter(init, p);
        assert (f + [last])[..|f|] == f;
      }
    }
  }

  lemma {:induction false} SortOfSorted<T(!new)>(s: seq<T>, le: (T, T) -> bool)
    requires Sorted(s, le)
    ensures StableSort(s, le) == s
  {
    if |s| > 0 {
      var init, last := s[..|s| - 1], s[|s| - 1];
      SortOfSorted(init, le);
      assert s == init + [last];
      if |init| > 0 { assert le(init[|init| - 1], last); }
    }
  }

  function EquivalentTo<T>(x: T, le: (T, T) -> bool): T -> bool {
    y => le(x, y) && le(y, x)
  }

  /**
   `t` is `s` rearranged in `le` order with ties left in their original order:
   sorted, and for every element the tied elements appear in the same sequence.
   */
  ghost predicate IsStableSortOf<T(!new)>(t: seq<T>, s: seq<T>, le: (T, T) -> bool) {
    && Sorted(t, le)
    && forall x :: Filter(t, EquivalentTo(x, le)) == Filter(s, EquivalentTo(x, le))
  }

  lemma TiesAreSorted<T(!new)>(s: seq<T>, x: T, le: (T, T) -> bool)
    requires TotalPreorder(le)
    ensures Sorted(Filter(s, EquivalentTo(x, le)), le)
  {
    var f := Filter(s, EquivalentTo(x, le));
    FilterMember(s, EquivalentTo(x, le));
    forall i, j | 0 <= i < j < |f| ensures le(f[i], f[j]) {
      assert f[i] in f && f[j] in f;
      assert Chain(le, f[i], x, f[j]);
    }
  }

  lemma StableSortIsStable<T(!new)>(s: seq<T>, le: (T, T) -> bool)
    requires TotalPreorder(le)
    ensures IsStableSortOf(StableSort(s, le), s, le)
  {
    StableSortSorts(s, le);
    forall x ensures Filter(StableSort(s, le), EquivalentTo(x, le)) == Filter(s, EquivalentTo(x, le)) {
      SortFilter(s, EquivalentTo(x, le), le);
      TiesAreSorted(s, x, le);
      SortOfSorted(Filter(s, EquivalentTo(x, le)), le);
    }
  }

  /** Two sorted sequences with the same tie classes are the same sequence. */
  lemma {:induction false} SortedByClasses<T(!new)>(s: seq<T>, t: seq<T>, le: (T, T) -> bool)
    requires TotalPreorder(le) && Sorted(s, le) && Sorted(t, le)
    requires forall x :: Filter(t, EquivalentTo(x, le)) == Filter(s, EquivalentTo(x, le))
    ensures s == t
  {
    SameClassesNonempty(s, t, le);
    SameClassesNonempty(t, s, le);
    if |s| > 0 {
      var a, b := s[|s| - 1], t[|t| - 1];
      LastIsGreatest(s, t, le);
      LastIsGreatest(t, s, le);
      var p := EquivalentTo(a, le);
      assert Comparable(le, a, a);
      assert Filter(s, p) == Filter(s[..|s| - 1], p) + [a];
      assert Filter(t, p) == Filter(t[..|t| - 1], p) + [b];
      assert a == (Filter(s[..|s| - 1], p) + [a])[|Filter(s, p)| - 1] == b;
      forall x ensures Filter(t[..|t| - 1], EquivalentTo(x, le)) == Filter(s[..|s| - 1], EquivalentTo(x, le)) {
        var q := EquivalentTo(x, le);
        var fs, ft := Filter(s[..|s| - 1], q), Filter(t[..|t| - 1], q);
        if q(a) {
          assert fs == (fs + [a])[..|fs + [a]| - 1];
          assert ft == (ft + [a])[..|ft + [a]| - 1];
        }
      }
      SortedByClasses(s[..|s| - 1], t[..|t| - 1], le);
      assert s == s[..|s| - 1] + [a] && t == t[..|t| - 1] + [b];
    }
  }

  lemma SameClassesNonempty<T(!new)>(s: seq<T>, t: seq<T>, le: (T, T) -> bool)
    requires TotalPreorder(le)
    requires forall x :: Filter(t, EquivalentTo(x, le)) == Filter(s, EquivalentTo(x, le))
    ensures |s| > 0 ==> |t| > 0
  {
    if |s| > 0 {
      var p := EquivalentTo(s[0], le);
      FilterMember(s, p);
      assert Comparable(le, s[0], s[0]);
      assert s[0] in Filter(s, p);
      assert Filter(t, p) == Filter(s, p);
    }
  }

  lemma LastIsGreatest<T(!new)>(s: seq<T>, t: seq<T>, le: (T, T) -> bool)
    requires TotalPreorder(le) && Sorted(s, le) && Sorted(t, le) && |s| > 0 && |t| > 0
    requires forall x :: Filter(t, EquivalentTo(x, le)) == Filter(s, EquivalentTo(x, le))
    ensures le(t[|t| - 1], s[|s| - 1])
  {
    var b := t[|t| - 1];
    FilterMember(t, EquivalentTo(b, le));
    FilterMember(s, EquivalentTo(b, le));
    assert Comparable(le, b, b);
    assert b in Filter(t, EquivalentTo(b, le));
    var i :| 0 <= i < |s| && s[i] == b;
    if i < |s| - 1 { assert le(s[i], s[|s| - 1]); }
  }

  /** `StableSort` is the only stable sort, whatever algorithm computes it. */
  lemma StableSortIsTheOnlyOne<T(!new)>(t: seq<T>, s: seq<T>, le: (T, T) -> bool)
    requires TotalPreorder(le)
    ensures IsStableSortOf(t, s, le) <==> t == StableSort(s, le)
  {
    StableSortIsStable(s, le);
    if IsStableSortOf(t, s, le) {
      SortedByClasses(t, StableSort(s, le), le);
    }
  }

  lemma SortedLast<T(!new)>(s: seq<T>, t: seq<T>, le: (T, T) -> bool)
    requires TotalPreorder(le) && Sorted(s, le) && |s| > 0 && |t| > 0
    requires multiset(s) == multiset(t)
    ensures le(t[|t| - 1], s[|s| - 1])
  {
    var b := t[|t| - 1];
    assert b in multiset(t);
    var i :| 0 <= i < |s| && s[i] == b;
    assert Comparable(le, b, b);
  }

  /** Under a total order the result of sorting depends on the multiset alone. */
  lemma {:induction false} SortedUnique<T(!new)>(s: seq<T>, t: seq<T>, le: (T, T) -> bool)
    requires TotalPreorder(le) && Antisymmetric(le)
    requires Sorted(s, le) && Sorted(t, le) && multiset(s) == multiset(t)
    ensures s == t
  {
    hide Sorted, TotalPreorder, Antisymmetric;
    if |s| == 0 {
      assert |multiset(t)| == 0;
    } else {
      assert |multiset(s)| == |multiset(t)|;
      SameLast(s, t, le);
      SortedInit(s, le);
      SortedInit(t, le);
      WithoutLast(s);
      WithoutLast(t);
      SortedUnique(s[..|s| - 1], t[..|t| - 1], le);
      assert s == s[..|s| - 1] + [s[|s| - 1]] && t == t[..|t| - 1] + [t[|t| - 1]];
    }
  }

  lemma SameLast<T(!new)>(s: seq<T>, t: seq<T>, le: (T, T) -> bool)
    requires TotalPreorder(le) && Antisymmetric(le) && |s| > 0 && |t| > 0
    requires Sorted(s, le) && Sorted(t, le) && multiset(s) == multiset(t)
    ensures s[|s| - 1] == t[|t| - 1]
  {
    SortedLast(s, t, le);
    SortedLast(t, s, le);
    assert Tie(le, s[|s| - 1], t[|t| - 1]);
  }

  lemma SortedInit<T>(s: seq<T>, le: (T, T) -> bool)
    requires Sorted(s, le) && |s| > 0
    ensures Sorted(s[..|s| - 1], le)
  {}

  lemma WithoutLast<T>(s: seq<T>)
    requires |s| > 0
    ensures multiset(s[..|s| - 1]) == multiset(s) - multiset{s[|s| - 1]}
  {
    assert s == s[..|s| - 1] + [s[|s| - 1]];
  }

  lemma SortOfPermutation<T(!new)>(s: seq<T>, t: seq<T>, le: (T, T) -> bool)
    requires TotalPreorder(le) && Antisymmetric(le) && multiset(s) == multiset(t)
    ensures StableSort(s, le) == StableSort(t, le)
  {
    StableSortSorts(s, le);
    StableSortSorts(t, le);
    SortedUnique(StableSort(s, le), StableSort(t, le), le);
  }

  // ---- Lexicographic order ------------------------------------------------

  ghost predicate StrictTotalOrder<T(!new)>(lt: (T, T) -> bool) {
    && (forall a :: !lt(a, a))
    && (forall a, b :: a != b ==> lt(a, b) || lt(b, a))
    && (forall a, b, c :: lt(a, b) && lt(b, c) ==> lt(a, c))
  }

  /** Python's comparison of equally typed tuples and of strings. */
  predicate LexLe<T(==)>(lt: (T, T) -> bool, a: seq<T>, b: seq<T>) {
    |a| == 0 || (|b| > 0 && (lt(a[0], b[0]) || (a[0] == b[0] && LexLe(lt, a[1..], b[1..]))))
  }

  lemma {:induction false} LexTotal<T(!new)>(lt: (T, T) -> bool, a: seq<T>, b: seq<T>)
    requires StrictTotalOrder(lt)
    ensures LexLe(lt, a, b) || LexLe(lt, b, a)
    ensures LexLe(lt, a, b) && LexLe(lt, b, a) ==> a == b
  {
    if |a| > 0 && |b| > 0 && a[0] == b[0] {
      LexTotal(lt, a[1..], b[1..]);
      assert a == [a[0]] + a[1..] && b == [b[0]] + b[1..];
    } else if |a| > 0 && |b| > 0 {
      var x, y := a[0], b[0];
      assert !(lt(x, y) && lt(y, x)) by { assert !lt(x, x); }
    }
  }

  lemma {:induction false} LexTransitive<T(!new)>(lt: (T, T) -> bool, a: seq<T>, b: seq<T>, c: seq<T>)
    requires StrictTotalOrder(lt)
    requires LexLe(lt, a, b) && LexLe(lt, b, c)
    ensures LexLe(lt, a, c)
  {
    if |a| > 0 && a[0] == b[0] && b[0] == c[0] {
      if LexLe(lt, a[1..], b[1..]) && LexLe(lt, b[1..], c[1..]) {
        LexTransitive(lt, a[1..], b[1..], c[1..]);
      }
    }
  }

  predicate CharLt(a: char, b: char) { a < b }

  predicate RealLt(a: real, b: real) { a < b }

  predicate StringLe(a: string, b: string) { LexLe(CharLt, a, b) }

  predicate RealsLe(a: seq<real>, b: seq<real>) { LexLe(RealLt, a, b) }

  lemma StringOrder()
    ensures TotalPreorder(StringLe) && Antisymmetric(StringLe)
  {
    assert StrictTotalOrder(CharLt);
    forall a, b ensures StringLe(a, b) || StringLe(b, a)
      ensures StringLe(a, b) && StringLe(b, a) ==> a == b { LexTotal(CharLt, a, b); }
    forall a, b, c | StringLe(a, b) && StringLe(b, c) ensures StringLe(a, c) {
      LexTransitive(CharLt, a, b, c);
    }
  }

  lemma RealsOrder()
    ensures TotalPreorder(RealsLe) && Antisymmetric(RealsLe)
  {
    assert StrictTotalOrder(RealLt);
    forall a, b ensures RealsLe(a, b) || RealsLe(b, a)
      ensures RealsLe(a, b) && RealsLe(b, a) ==> a == b { LexTotal(RealLt, a, b); }
    forall a, b, c | RealsLe(a, b) && RealsLe(b, c) ensures RealsLe(a, c) {
      LexTransitive(RealLt, a, b, c);
    }
  }
}
