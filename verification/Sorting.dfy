/** The stable sort that `slice::sort_by` and `sort_by_key` promise, and the facts
    about it that the rule loaders and the statistics tables rest on. */
module Sorting {
  import opened Base

  ghost predicate TotalPreorder<T(!new)>(le: (T, T) -> bool) {
    && (forall x, y :: le(x, y) || le(y, x))
    && (forall x, y, z :: le(x, y) && le(y, z) ==> le(x, z))
  }

  ghost predicate Sorted<T>(s: seq<T>, le: (T, T) -> bool) {
    forall i, j :: 0 <= i < j < |s| ==> le(s[i], s[j])
  }

  /** Puts x in front of the first element that is not strictly below it. */
  function Insert<T>(x: T, s: seq<T>, le: (T, T) -> bool): seq<T> {
    if s == [] || le(x, s[0]) then [x] + s
    else [s[0]] + Insert(x, s[1..], le)
  }

  function StableSort<T>(s: seq<T>, le: (T, T) -> bool): seq<T> {
    if s == [] then [] else Insert(s[0], StableSort(s[1..], le), le)
  }

  // --- Permutation and order -------------------------------------------------

  lemma {:induction false} InsertMultiset<T>(x: T, s: seq<T>, le: (T, T) -> bool)
    ensures multiset(Insert(x, s, le)) == multiset{x} + multiset(s)
    ensures |Insert(x, s, le)| == |s| + 1
  {
    if s != [] && !le(x, s[0]) {
      InsertMultiset(x, s[1..], le);
      assert s == [s[0]] + s[1..];
    }
  }

  lemma {:induction false} InsertMembers<T>(x: T, s: seq<T>, le: (T, T) -> bool)
    ensures forall y :: y in Insert(x, s, le) <==> y == x || y in s
  {
    if s != [] && !le(x, s[0]) {
      InsertMembers(x, s[1..], le);
      assert s == [s[0]] + s[1..];
    }
  }

  lemma {:induction false} SortPermutes<T>(s: seq<T>, le: (T, T) -> bool)
    ensures multiset(StableSort(s, le)) == multiset(s)
    ensures |StableSort(s, le)| == |s|
  {
    if s != [] {
      SortPermutes(s[1..], le);
      InsertMultiset(s[0], StableSort(s[1..], le), le);
      assert s == [s[0]] + s[1..];
    }
  }

  lemma {:induction false} SortMembers<T(!new)>(s: seq<T>, le: (T, T) -> bool)
    ensures forall x :: x in StableSort(s, le) <==> x in s
  {
    SortPermutes(s, le);
    forall x ensures x in StableSort(s, le) <==> x in s {
      assert x in s <==> x in multiset(s);
      assert x in StableSort(s, le) <==> x in multiset(StableSort(s, le));
    }
  }

  lemma {:induction false} InsertSorted<T(!new)>(x: T, s: seq<T>, le: (T, T) -> bool)
    requires TotalPreorder(le) && Sorted(s, le)
    ensures Sorted(Insert(x, s, le), le)
  {
    if s == [] {
    } else if le(x, s[0]) {
      assert forall j :: 0 <= j < |s| ==> le(x, s[j]);
    } else {
      InsertSorted(x, s[1..], le);
      InsertMembers(x, s[1..], le);
      var t := Insert(x, s[1..], le);
      forall j | 0 <= j < |t| ensures le(s[0], t[j]) {
        assert t[j] in t;
      }
    }
  }

  lemma {:induction false} SortSorted<T(!new)>(s: seq<T>, le: (T, T) -> bool)
    requires TotalPreorder(le)
    ensures Sorted(StableSort(s, le), le)
  {
    if s != [] {
      SortSorted(s[1..], le);
      InsertSorted(s[0], StableSort(s[1..], le), le);
    }
  }

  // --- Stability ---------------------------------------------------------------

  lemma {:induction false} FilterInsert<T(!new)>(x: T, s: seq<T>, le: (T, T) -> bool, p: T -> bool)
    requires TotalPreorder(le) && Sorted(s, le)
    ensures Filter(Insert(x, s, le), p) == if p(x) then Insert(x, Filter(s, p), le) else Filter(s, p)
  {
    if s == [] {
    } else if le(x, s[0]) {
      assert ([x] + s)[1..] == s;
      if p(x) && Filter(s, p) != [] {
        FilterMember(s, p, Filter(s, p)[0]);
        assert le(x, Filter(s, p)[0]);
      }
    } else {
      FilterInsert(x, s[1..], le, p);
      assert ([s[0]] + Insert(x, s[1..], le))[1..] == Insert(x, s[1..], le);
      if p(s[0]) {
        assert Filter(s, p)[1..] == Filter(s[1..], p);
      }
    }
  }

  /** Stability: sorting and then keeping some elements is the same as keeping
      them first. For a class of equal elements this says their order is kept. */
  lemma {:induction false} FilterSort<T(!new)>(s: seq<T>, le: (T, T) -> bool, p: T -> bool)
    requires TotalPreorder(le)
    ensures Filter(StableSort(s, le), p) == StableSort(Filter(s, p), le)
  {
    if s != [] {
      FilterSort(s[1..], le, p);
      SortSorted(s[1..], le);
      FilterInsert(s[0], StableSort(s[1..], le), le, p);
      if p(s[0]) {
        assert Filter(s, p)[1..] == Filter(s[1..], p);
      }
    }
  }

  /** The head of a sorted sequence is the least element and, of equally small
      ones, the one that stood earliest. */
  lemma {:induction false} HeadOfSort<T(!new)>(s: seq<T>, le: (T, T) -> bool) returns (k: nat)
    requires TotalPreorder(le) && s != []
    ensures k < |s| && |StableSort(s, le)| > 0 && StableSort(s, le)[0] == s[k]
    ensures forall j :: 0 <= j < |s| ==> le(s[k], s[j])
    ensures forall j :: 0 <= j < k ==> !le(s[j], s[k])
  {
    if |s| == 1 {
      k := 0;
    } else {
      var h := HeadOfSort(s[1..], le);
      assert forall j :: 0 < j < |s| ==> s[j] == s[1..][j - 1];
      k := if le(s[0], s[h + 1]) then 0 else h + 1;
    }
  }

  /** Where the h-th kept element stood, and what was kept before it. */
  lemma {:induction false} FilterIndex<T>(s: seq<T>, p: T -> bool, h: nat) returns (k: nat)
    requires h < |Filter(s, p)|
    ensures k < |s| && p(s[k]) && s[k] == Filter(s, p)[h]
    ensures Filter(s[..k], p) == Filter(s, p)[..h]
  {
    if p(s[0]) && h == 0 {
      k := 0;
    } else {
      k := FilterIndex(s[1..], p, if p(s[0]) then h - 1 else h);
      assert s[..k + 1][1..] == s[1..][..k];
      k := k + 1;
    }
  }

  /** Among the elements satisfying p, sorting puts first the one that is least
      and, of equally small ones, stood earliest: element k of the input. */
  lemma FirstAfterSort<T(!new)>(s: seq<T>, le: (T, T) -> bool, p: T -> bool) returns (k: nat)
    requires TotalPreorder(le)
    requires exists i :: 0 <= i < |s| && p(s[i])
    ensures k < |s| && p(s[k])
    ensures forall j :: 0 <= j < |s| && p(s[j]) ==> le(s[k], s[j])
    ensures forall j :: 0 <= j < k && p(s[j]) ==> !le(s[j], s[k])
    ensures |Filter(StableSort(s, le), p)| > 0 && Filter(StableSort(s, le), p)[0] == s[k]
  {
    FilterSort(s, le, p);
    var t := Filter(s, p);
    assert t != [] by {
      var i :| 0 <= i < |s| && p(s[i]);
      FilterMember(s, p, s[i]);
    }
    var h := HeadOfSort(t, le);
    k := FilterIndex(s, p, h);
    forall j | 0 <= j < |s| && p(s[j]) ensures le(s[k], s[j]) {
      FilterMember(s, p, s[j]);
    }
    forall j | 0 <= j < k && p(s[j]) ensures !le(s[j], s[k]) {
      assert s[j] in s[..k];
      FilterMember(s[..k], p, s[j]);
      assert s[j] in t[..h];
    }
  }

  // --- Uniqueness ----------------------------------------------------------------

  lemma HeadIsLeast<T>(s: seq<T>, le: (T, T) -> bool, x: T)
    requires Sorted(s, le) && x in s
    ensures x == s[0] || le(s[0], x)
  {
  }

  lemma TailMultiset<T>(s: seq<T>, t: seq<T>)
    requires s != [] && t != [] && s[0] == t[0] && multiset(s) == multiset(t)
    ensures multiset(s[1..]) == multiset(t[1..])
  {
    assert s == [s[0]] + s[1..] && t == [t[0]] + t[1..];
    assert multiset(s[1..]) == multiset(s) - multiset{s[0]};
    assert multiset(t[1..]) == multiset(t) - multiset{t[0]};
  }

  lemma SameMembers<T>(s: seq<T>, t: seq<T>, x: T)
    requires multiset(s) == multiset(t) && x in s
    ensures x in t
  {
    assert x in multiset(s);
  }

  /** Two sorted arrangements of the same elements are the same sequence when
      different elements are never tied. */
  lemma {:induction false} SortedUnique<T>(s: seq<T>, t: seq<T>, le: (T, T) -> bool)
    requires Sorted(s, le) && Sorted(t, le)
    requires multiset(s) == multiset(t)
    requires forall x, y | x in s && y in s :: le(x, y) && le(y, x) ==> x == y
    ensures s == t
  {
    assert |s| == |multiset(s)| == |multiset(t)| == |t|;
    if s != [] {
      SameMembers(s, t, s[0]);
      SameMembers(t, s, t[0]);
      HeadIsLeast(s, le, t[0]);
      HeadIsLeast(t, le, s[0]);
      TailMultiset(s, t);
      SortedUnique(s[1..], t[1..], le);
    }
  }

  lemma {:induction false} SortOfPermutation<T(!new)>(s: seq<T>, t: seq<T>, le: (T, T) -> bool)
    requires TotalPreorder(le)
    requires multiset(s) == multiset(t)
    requires forall x, y | x in s && y in s :: le(x, y) && le(y, x) ==> x == y
    ensures StableSort(s, le) == StableSort(t, le)
  {
    SortPermutes(s, le);
    SortPermutes(t, le);
    SortSorted(s, le);
    SortSorted(t, le);
    SortMembers(s, le);
    SortedUnique(StableSort(s, le), StableSort(t, le), le);
  }

  /** An element cut off from a sorted sequence is no better than any kept one. */
  lemma KeptPrefixIsBest<T>(s: seq<T>, n: nat, le: (T, T) -> bool, kept: T, cut: T)
    requires Sorted(s, le) && n <= |s|
    requires kept in s[..n] && cut in s && cut !in s[..n]
    ensures le(kept, cut)
  {
    var i :| 0 <= i < n && s[..n][i] == kept;
    var j :| 0 <= j < |s| && s[j] == cut;
    assert forall m :: 0 <= m < n ==> s[..n][m] == s[m] && s[m] in s[..n];
  }

  // --- Order-preserving changes of the elements ------------------------------------

  lemma {:induction false} MapInsert<S, T>(x: S, s: seq<S>, leS: (S, S) -> bool, leT: (T, T) -> bool, f: S -> T)
    requires forall y, z :: y in [x] + s && z in [x] + s ==> leT(f(y), f(z)) == leS(y, z)
    ensures Map(Insert(x, s, leS), f) == Insert(f(x), Map(s, f), leT)
  {
    if s == [] {
      assert Map([x] + s, f) == [f(x)] + Map(s, f);
    } else {
      assert x in [x] + s && s[0] in [x] + s;
      if leS(x, s[0]) {
        assert Map([x] + s, f) == [f(x)] + Map(s, f);
      } else {
        assert forall y :: y in [x] + s[1..] ==> y in [x] + s;
        MapInsert(x, s[1..], leS, leT, f);
        assert Map(s, f)[1..] == Map(s[1..], f);
      }
    }
  }

  /** Changing elements without changing how they compare commutes with sorting. */
  lemma {:induction false} MapSort<S(!new), T>(s: seq<S>, leS: (S, S) -> bool, leT: (T, T) -> bool, f: S -> T)
    requires forall y, z :: y in s && z in s ==> leT(f(y), f(z)) == leS(y, z)
    ensures Map(StableSort(s, leS), f) == StableSort(Map(s, f), leT)
  {
    if s != [] {
      MapSort(s[1..], leS, leT, f);
      SortMembers(s[1..], leS);
      assert forall y :: y in [s[0]] + StableSort(s[1..], leS) ==> y in s;
      MapInsert(s[0], StableSort(s[1..], leS), leS, leT, f);
      assert Map(s, f)[1..] == Map(s[1..], f);
    }
  }

  lemma {:induction false} SortOfSorted<T>(s: seq<T>, le: (T, T) -> bool)
    requires Sorted(s, le)
    ensures StableSort(s, le) == s
  {
    if s != [] {
      SortOfSorted(s[1..], le);
    }
  }

  // --- Lexicographic order on text ---------------------------------------------------

  /** The order of Rust's `str`: by code points, shorter first. (Comparing the
      UTF-8 bytes gives the same order.) */
  predicate TextLe(a: string, b: string) {
    a == [] || (b != [] && (a[0] < b[0] || (a[0] == b[0] && TextLe(a[1..], b[1..]))))
  }

  lemma {:induction false} TextLeTotal(a: string, b: string)
    ensures TextLe(a, b) || TextLe(b, a)
  {
    if a != [] && b != [] {
      TextLeTotal(a[1..], b[1..]);
    }
  }

  lemma {:induction false} TextLeTransitive(a: string, b: string, c: string)
    requires TextLe(a, b) && TextLe(b, c)
    ensures TextLe(a, c)
  {
    if a != [] && a[0] == b[0] && b[0] == c[0] {
      TextLeTransitive(a[1..], b[1..], c[1..]);
    }
  }

  lemma {:induction false} TextLeAntisymmetric(a: string, b: string)
    requires TextLe(a, b) && TextLe(b, a)
    ensures a == b
  {
    if a != [] && b != [] {
      TextLeAntisymmetric(a[1..], b[1..]);
      assert a == [a[0]] + a[1..] && b == [b[0]] + b[1..];
    }
  }

  /** The texts agree up to position i, where the first has the smaller character. */
  ghost predicate SmallerAt(a: string, b: string, i: int) {
    0 <= i < |a| && i < |b| && a[..i] == b[..i] && a[i] < b[i]
  }

  /** Dictionary order: the first difference decides, and a beginning comes before the
      whole. */
  lemma {:induction false} TextLeMeans(a: string, b: string)
    ensures TextLe(a, b) <==> a <= b || exists i :: SmallerAt(a, b, i)
  {
    if a != [] && b != [] {
      TextLeMeans(a[1..], b[1..]);
      assert a[..0] == b[..0];
      assert SmallerAt(a, b, 0) <==> a[0] < b[0];
      forall i | i > 0 ensures SmallerAt(a, b, i) <==> a[0] == b[0] && SmallerAt(a[1..], b[1..], i - 1) {
        ShiftedDifference(a, b, i);
      }
      if i :| SmallerAt(a[1..], b[1..], i) && a[0] == b[0] {
        assert SmallerAt(a, b, i + 1);
      }
    }
  }

  lemma ShiftedDifference(a: string, b: string, i: nat)
    requires a != [] && b != [] && i > 0
    ensures SmallerAt(a, b, i) <==> a[0] == b[0] && SmallerAt(a[1..], b[1..], i - 1)
  {
    if i < |a| && i < |b| {
      assert a[..i] == [a[0]] + a[1..][..i - 1] && b[..i] == [b[0]] + b[1..][..i - 1];
      assert a[1..][..i - 1] == a[..i][1..] && b[1..][..i - 1] == b[..i][1..];
      assert a[..i][0] == a[0] && b[..i][0] == b[0];
    }
  }
}
