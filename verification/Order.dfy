/** The orders the program sorts by, and what a sort is allowed to rely on. */
module Order {

  /** Go's `<` on strings: lexicographic, a proper prefix first. */
  predicate Less(a: string, b: string)
  {
    |b| > 0 && (|a| == 0 || a[0] < b[0] || (a[0] == b[0] && Less(a[1..], b[1..])))
  }

  lemma LessIsTotal(a: string, b: string)
    ensures Less(a, b) || a == b || Less(b, a)
  {
    if |a| > 0 && |b| > 0 && a[0] == b[0] {
      LessIsTotal(a[1..], b[1..]);
      assert a == [a[0]] + a[1..] && b == [b[0]] + b[1..];
    }
  }

  lemma LessIsAsymmetric(a: string, b: string)
    requires Less(a, b)
    ensures !Less(b, a) && a != b
  {
    if |a| > 0 && a[0] == b[0] {
      LessIsAsymmetric(a[1..], b[1..]);
    }
  }

  lemma LessIsTransitive(a: string, b: string, c: string)
    requires Less(a, b) && Less(b, c)
    ensures Less(a, c)
  {
    if |a| > 0 && a[0] == b[0] == c[0] {
      LessIsTransitive(a[1..], b[1..], c[1..]);
    }
  }

  lemma LessIsStrictTotal()
    ensures StrictTotal(Less)
  {
    forall a, b ensures Less(a, b) || a == b || Less(b, a) { LessIsTotal(a, b); }
    forall a, b | Less(a, b) ensures !Less(b, a) { LessIsAsymmetric(a, b); }
    forall a, b, c | Less(a, b) && Less(b, c) ensures Less(a, c) { LessIsTransitive(a, b, c); }
  }

  /** Up to `k` the strings agree, and there `a` ends or has the smaller character. */
  predicate DiffersAt(a: string, b: string, k: nat)
  {
    k <= |a| && k < |b| && a[..k] == b[..k] && (k == |a| || a[k] < b[k])
  }

  /** The first difference decides, and a proper prefix goes first. */
  lemma LessMeans(a: string, b: string)
    ensures Less(a, b) <==> exists k: nat :: DiffersAt(a, b, k)
  {
    if Less(a, b) {
      var _ := WhereLess(a, b);
    }
    forall k: nat | DiffersAt(a, b, k) ensures Less(a, b) {
      DifferenceDecides(a, b, k);
    }
  }

  lemma WhereLess(a: string, b: string) returns (k: nat)
    requires Less(a, b)
    ensures DiffersAt(a, b, k)
  {
    k := 0;
    if |a| > 0 && a[0] == b[0] {
      var j := WhereLess(a[1..], b[1..]);
      k := j + 1;
      assert a[..k] == [a[0]] + a[1..][..j] && b[..k] == [b[0]] + b[1..][..j];
    }
  }

  lemma {:induction false} DifferenceDecides(a: string, b: string, k: nat)
    requires DiffersAt(a, b, k)
    ensures Less(a, b)
    decreases k
  {
    if k > 0 {
      assert a[..k][0] == a[0] && b[..k][0] == b[0];
      assert a[1..][..k - 1] == a[..k][1..] && b[1..][..k - 1] == b[..k][1..];
      DifferenceDecides(a[1..], b[1..], k - 1);
    }
  }

  ghost predicate Asymmetric<T(!new)>(less: (T, T) -> bool)
  {
    forall a, b :: less(a, b) ==> !less(b, a)
  }

  ghost predicate StrictTotal<T(!new)>(less: (T, T) -> bool)
  {
    && Asymmetric(less)
    && (forall a, b :: less(a, b) || a == b || less(b, a))
    && (forall a, b, c :: less(a, b) && less(b, c) ==> less(a, c))
  }

  /** What `sort.Slice` needs of its comparison. */
  ghost predicate StrictWeak<T(!new)>(less: (T, T) -> bool)
  {
    && Asymmetric(less)
    && (forall a, b, c :: less(a, c) ==> less(a, b) || less(b, c))
  }

  lemma StrictTotalIsStrictWeak<T(!new)>(less: (T, T) -> bool)
    requires StrictTotal(less)
    ensures StrictWeak(less)
  {
    forall a, b, c | less(a, c) ensures less(a, b) || less(b, c) {
      assert less(a, b) || a == b || less(b, a);
    }
  }

  /** No later element belongs before an earlier one. */
  ghost predicate SortedBy<T>(less: (T, T) -> bool, xs: seq<T>)
  {
    forall i, j :: 0 <= i < j < |xs| ==> !less(xs[j], xs[i])
  }

  ghost predicate StrictlySortedBy<T>(less: (T, T) -> bool, xs: seq<T>)
  {
    forall i, j :: 0 <= i < j < |xs| ==> less(xs[i], xs[j])
  }

  ghost predicate Distinct<T>(xs: seq<T>)
  {
    forall i, j :: 0 <= i < j < |xs| ==> xs[i] != xs[j]
  }

  /**
   The shape of every comparison the program sorts by: a larger first rank
   goes first, then a larger second rank, then the smaller key.
   */
  function Ranked<T>(first: T -> real, second: T -> real, key: T -> string): (T, T) -> bool
  {
    (a, b) =>
      || first(a) > first(b)
      || (first(a) == first(b) && second(a) > second(b))
      || (first(a) == first(b) && second(a) == second(b) && Less(key(a), key(b)))
  }

  lemma RankedIsStrictWeak<T(!new)>(first: T -> real, second: T -> real, key: T -> string)
    ensures StrictWeak(Ranked(first, second, key))
  {
    LessIsStrictTotal();
    var less := Ranked(first, second, key);
    forall a, b, c | less(a, c) ensures less(a, b) || less(b, c) {
      assert Less(key(a), key(c)) ==> Less(key(a), key(b)) || key(a) == key(b) || Less(key(b), key(a));
    }
  }

  function NoRank<T>(): T -> real
  {
    _ => 0.0
  }

  /**
   `sort.Slice`. The sort is not stable, so callers may rely only on the
   postconditions: some ordered permutation comes back.
   */
  method SortSlice<T(!new)>(xs: seq<T>, less: (T, T) -> bool) returns (ys: seq<T>)
    requires StrictWeak(less)
    ensures multiset(ys) == multiset(xs)
    ensures SortedBy(less, ys)
    ensures |ys| == |xs|
    ensures forall x :: x in ys <==> x in xs
  {
    ys := [];
    for n := 0 to |xs|
      invariant multiset(ys) == multiset(xs[..n])
      invariant SortedBy(less, ys)
    {
      var k := 0;
      while k < |ys| && !less(xs[n], ys[k])
        invariant 0 <= k <= |ys|
        invariant forall i :: 0 <= i < k ==> !less(xs[n], ys[i])
      {
        k := k + 1;
      }
      InsertKeepsOrder(less, ys, k, xs[n]);
      assert xs[..n + 1] == xs[..n] + [xs[n]];
      ys := ys[..k] + [xs[n]] + ys[k..];
    }
    assert xs[..|xs|] == xs;
    PermutationFacts(ys, xs);
  }

  lemma InsertKeepsOrder<T(!new)>(less: (T, T) -> bool, ys: seq<T>, k: nat, x: T)
    requires StrictWeak(less) && SortedBy(less, ys) && k <= |ys|
    requires forall i :: 0 <= i < k ==> !less(x, ys[i])
    requires k < |ys| ==> less(x, ys[k])
    ensures SortedBy(less, ys[..k] + [x] + ys[k..])
    ensures multiset(ys[..k] + [x] + ys[k..]) == multiset(ys) + multiset{x}
  {
    forall j | k <= j < |ys| ensures !less(ys[j], x) {
      NotBefore(less, ys, k, x, j);
    }
    InsertedSorted(less, ys, k, x, ys[..k] + [x] + ys[k..]);
    InsertedOnce(ys, k, x);
  }

  lemma NotBefore<T(!new)>(less: (T, T) -> bool, ys: seq<T>, k: nat, x: T, j: nat)
    requires StrictWeak(less) && SortedBy(less, ys) && k <= j < |ys| && less(x, ys[k])
    ensures !less(ys[j], x)
  {
    assert !less(ys[j], ys[k]) && !less(ys[k], x);
  }

  lemma InsertedSorted<T>(less: (T, T) -> bool, ys: seq<T>, k: nat, x: T, zs: seq<T>)
    requires k <= |ys| && zs == ys[..k] + [x] + ys[k..] && SortedBy(less, ys)
    requires forall i :: 0 <= i < k ==> !less(x, ys[i])
    requires forall j :: k <= j < |ys| ==> !less(ys[j], x)
    ensures SortedBy(less, zs)
  {
    assert forall i :: 0 <= i < |zs| ==> zs[i] == if i < k then ys[i] else if i == k then x else ys[i - 1];
  }

  lemma InsertedOnce<T>(ys: seq<T>, k: nat, x: T)
    requires k <= |ys|
    ensures multiset(ys[..k] + [x] + ys[k..]) == multiset(ys) + multiset{x}
  {
    assert ys == ys[..k] + ys[k..];
  }

  lemma PermutationFacts<T>(xs: seq<T>, ys: seq<T>)
    requires multiset(xs) == multiset(ys)
    ensures |xs| == |ys|
    ensures forall x :: x in xs <==> x in ys
    ensures Distinct(xs) ==> Distinct(ys)
  {
    assert |multiset(xs)| == |multiset(ys)|;
    forall x ensures x in xs <==> x in ys {
      assert x in xs <==> x in multiset(xs);
      assert x in ys <==> x in multiset(ys);
    }
    if Distinct(xs) {
      forall i, j | 0 <= i < j < |ys| ensures ys[i] != ys[j] {
        if ys[i] == ys[j] {
          assert ys == ys[..i] + [ys[i]] + ys[i + 1..j] + [ys[j]] + ys[j + 1..];
          assert multiset(ys)[ys[i]] >= 2;
          DistinctMultiplicity(xs, ys[i]);
        }
      }
    }
  }

  function Without<T>(xs: seq<T>, k: nat): seq<T>
    requires k < |xs|
  {
    xs[..k] + xs[k + 1..]
  }

  lemma WithoutRemovesOne<T>(xs: seq<T>, k: nat)
    requires k < |xs|
    ensures multiset(Without(xs, k)) == multiset(xs) - multiset{xs[k]}
  {
    assert xs == xs[..k] + [xs[k]] + xs[k + 1..];
  }

  /** The step of an induction over permutations: drop the first element from both. */
  lemma DropFromPermutation<T>(xs: seq<T>, ys: seq<T>) returns (k: nat)
    requires multiset(xs) == multiset(ys) && |xs| > 0
    ensures k < |ys| && ys[k] == xs[0] && multiset(xs[1..]) == multiset(Without(ys, k))
  {
    PermutationFacts(xs, ys);
    assert xs[0] in ys;
    k :| 0 <= k < |ys| && ys[k] == xs[0];
    WithoutRemovesOne(xs, 0);
    WithoutRemovesOne(ys, k);
    assert Without(xs, 0) == xs[1..];
  }

  function Map<A, B>(xs: seq<A>, f: A -> B): (ys: seq<B>)
    ensures |ys| == |xs|
    ensures forall i :: 0 <= i < |xs| ==> ys[i] == f(xs[i])
  {
    seq(|xs|, i requires 0 <= i < |xs| => f(xs[i]))
  }

  lemma {:induction false} MapOfPermutation<A, B>(xs: seq<A>, ys: seq<A>, f: A -> B)
    requires multiset(xs) == multiset(ys)
    ensures multiset(Map(xs, f)) == multiset(Map(ys, f))
    decreases |xs|
  {
    PermutationFacts(xs, ys);
    if |xs| > 0 {
      var k := DropFromPermutation(xs, ys);
      MapOfPermutation(xs[1..], Without(ys, k), f);
      MapWithout(xs, 0, f);
      MapWithout(ys, k, f);
      assert Without(xs, 0) == xs[1..];
    }
  }

  lemma MapWithout<A, B>(xs: seq<A>, k: nat, f: A -> B)
    requires k < |xs|
    ensures multiset(Map(xs, f)) == multiset(Map(Without(xs, k), f)) + multiset{f(xs[k])}
  {
    assert Map(Without(xs, k), f) == Without(Map(xs, f), k);
    WithoutRemovesOne(Map(xs, f), k);
    assert Map(xs, f)[k] in multiset(Map(xs, f));
  }

  function Elems<T>(xs: seq<T>): set<T>
  {
    set x | x in xs
  }

  lemma DistinctSize<T>(xs: seq<T>)
    requires Distinct(xs)
    ensures |Elems(xs)| == |xs|
  {
    if |xs| > 0 {
      DistinctSize(xs[1..]);
      assert xs == [xs[0]] + xs[1..];
      assert Elems(xs) == Elems(xs[1..]) + {xs[0]};
    }
  }

  lemma SubsetSize<T>(s: set<T>, t: set<T>)
    requires s <= t
    ensures |s| <= |t|
    ensures |s| == |t| ==> s == t
  {
    assert t == s + (t - s);
    assert |t| == |s| + |t - s|;
  }

  lemma OneMoreIf<T>(before: set<T>, after: set<T>, x: T, more: bool)
    requires x !in before && forall i :: i in after <==> i in before || (more && i == x)
    ensures |after| == |before| + (if more then 1 else 0)
  {
    if more {
      assert after == before + {x};
    } else {
      assert after == before;
    }
  }

  lemma SomeElement<T>(s: set<T>) returns (x: T)
    requires s != {}
    ensures x in s
  {
    x :| x in s;
  }

  lemma TwoElements<T>(s: set<T>) returns (x: T, y: T)
    requires |s| > 1
    ensures x in s && y in s && x != y
  {
    x :| x in s;
    assert |s - {x}| == |s| - 1;
    y :| y in s - {x};
  }

  lemma AppendNew<T>(xs: seq<T>, x: T)
    requires Distinct(xs) && x !in Elems(xs)
    ensures Distinct(xs + [x]) && Elems(xs + [x]) == Elems(xs) + {x}
  {
    assert x !in xs;
  }

  lemma DistinctMultiplicity<T>(xs: seq<T>, x: T)
    requires Distinct(xs)
    ensures multiset(xs)[x] <= 1
  {
    if |xs| > 0 {
      assert xs == [xs[0]] + xs[1..];
      DistinctMultiplicity(xs[1..], x);
      assert x == xs[0] ==> x !in xs[1..];
    }
  }

  /** Two listings of the same elements, once each, are permutations of one another. */
  lemma SameElementsPermuted<T>(xs: seq<T>, ys: seq<T>)
    requires Distinct(xs) && Distinct(ys) && Elems(xs) == Elems(ys)
    ensures multiset(xs) == multiset(ys)
  {
    forall x ensures multiset(xs)[x] == multiset(ys)[x] {
      DistinctMultiplicity(xs, x);
      DistinctMultiplicity(ys, x);
      assert x in xs <==> x in Elems(xs);
      assert x in ys <==> x in Elems(ys);
    }
  }

  /** Two strictly ordered listings of the same elements are the same listing. */
  lemma {:induction false} StrictOrderIsUnique<T(!new)>(less: (T, T) -> bool, xs: seq<T>, ys: seq<T>)
    requires Asymmetric(less)
    requires StrictlySortedBy(less, xs) && StrictlySortedBy(less, ys)
    requires forall x :: x in xs <==> x in ys
    ensures xs == ys
    decreases |xs|
  {
    assert |xs| > 0 ==> xs[0] in ys;
    assert |ys| > 0 ==> ys[0] in xs;
    if |xs| > 0 && |ys| > 0 {
      assert xs[0] == ys[0];
      forall x ensures x in xs[1..] <==> x in ys[1..] {
        assert x in xs[1..] <==> x in xs && x != xs[0] by {
          assert xs == [xs[0]] + xs[1..];
        }
        assert x in ys[1..] <==> x in ys && x != ys[0] by {
          assert ys == [ys[0]] + ys[1..];
        }
      }
      StrictOrderIsUnique(less, xs[1..], ys[1..]);
      assert xs == [xs[0]] + xs[1..] && ys == [ys[0]] + ys[1..];
    }
  }

}
