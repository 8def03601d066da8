/** A stable sort by an integer rank, the behaviour `Array.prototype.sort` has
    had to provide since ECMAScript 2019 when the comparator is `rank(a) - rank(b)`.

    Stability is stated without indices: a sequence is a stable sort of another
    when it is ordered by rank and, for every rank value, the elements carrying
    that rank appear in the same order as before. `StableSortUnique` shows this
    specification determines the result, and `SortMeetsSpec` shows the
    insertion sort below meets it. */
module StableSort {

  /** `s` is ordered by non-decreasing rank. */
  ghost predicate SortedBy<T>(s: seq<T>, rank: T -> int) {
    forall i, j :: 0 <= i < j < |s| ==> rank(s[i]) <= rank(s[j])
  }

  /** The subsequence of `s` whose elements have rank `k`, in their order in `s`. */
  function WithRank<T>(s: seq<T>, rank: T -> int, k: int): (r: seq<T>)
    ensures |r| <= |s|
  {
    if |s| == 0 then []
    else if rank(s[0]) == k then [s[0]] + WithRank(s[1..], rank, k)
    else WithRank(s[1..], rank, k)
  }

  /** An element belongs to the rank-`k` subsequence exactly when it belongs
      to `s` and has rank `k`. */
  lemma {:induction false} WithRankMember<T>(s: seq<T>, rank: T -> int, k: int, x: T)
    ensures x in WithRank(s, rank, k) <==> x in s && rank(x) == k
  {
    if |s| > 0 {
      WithRankMember(s[1..], rank, k, x);
      assert s == [s[0]] + s[1..];
    }
  }

  /** `r` is a stable sort of `s` by `rank`. */
  ghost predicate IsStableSort<T>(s: seq<T>, r: seq<T>, rank: T -> int) {
    SortedBy(r, rank) && forall k :: WithRank(r, rank, k) == WithRank(s, rank, k)
  }

  /** Places `x` before the first element of `s` whose rank is not below
      `x`'s, so that `x` precedes every element of equal rank. */
  function Insert<T>(x: T, s: seq<T>, rank: T -> int): (r: seq<T>)
    ensures multiset(r) == multiset(s) + multiset{x}
  {
    if |s| == 0 || rank(x) <= rank(s[0]) then
      [x] + s
    else
      assert s == [s[0]] + s[1..];
      [s[0]] + Insert(x, s[1..], rank)
  }

  /** A lower bound on the ranks of `x` and of `s` bounds the ranks of the
      result of the insertion. */
  lemma {:induction false} InsertLowerBound<T>(x: T, s: seq<T>, rank: T -> int, b: int)
    requires b <= rank(x)
    requires forall j :: 0 <= j < |s| ==> b <= rank(s[j])
    ensures forall j :: 0 <= j < |Insert(x, s, rank)| ==> b <= rank(Insert(x, s, rank)[j])
  {
    if |s| > 0 && rank(x) > rank(s[0]) {
      InsertLowerBound(x, s[1..], rank, b);
    }
  }

  /** An element whose rank bounds the ranks of an ordered sequence can be
      put in front of it. */
  lemma PrependSorted<T>(y: T, t: seq<T>, rank: T -> int)
    requires SortedBy(t, rank)
    requires forall j :: 0 <= j < |t| ==> rank(y) <= rank(t[j])
    ensures SortedBy([y] + t, rank)
  {
    var r := [y] + t;
    forall i, j | 0 <= i < j < |r| ensures rank(r[i]) <= rank(r[j]) {
      assert r[j] == t[j - 1];
      if i > 0 {
        assert r[i] == t[i - 1];
      }
    }
  }

  /** Inserting into a sequence ordered by rank keeps it ordered. */
  lemma {:induction false} InsertSorted<T>(x: T, s: seq<T>, rank: T -> int)
    requires SortedBy(s, rank)
    ensures SortedBy(Insert(x, s, rank), rank)
  {
    if |s| == 0 || rank(x) <= rank(s[0]) {
      PrependSorted(x, s, rank);
    } else {
      assert SortedBy(s[1..], rank);
      InsertSorted(x, s[1..], rank);
      InsertLowerBound(x, s[1..], rank, rank(s[0]));
      PrependSorted(s[0], Insert(x, s[1..], rank), rank);
    }
  }

  /** `x` joins the front of its own rank's subsequence and leaves every
      other rank's subsequence as it was. */
  lemma {:induction false} InsertWithRank<T>(x: T, s: seq<T>, rank: T -> int)
    ensures forall k ::
      WithRank(Insert(x, s, rank), rank, k) == (if rank(x) == k then [x] + WithRank(s, rank, k) else WithRank(s, rank, k))
  {
    if |s| == 0 || rank(x) <= rank(s[0]) {
      assert ([x] + s)[1..] == s;
    } else {
      var t := Insert(x, s[1..], rank);
      InsertWithRank(x, s[1..], rank);
      assert ([s[0]] + t)[1..] == t;
      assert s == [s[0]] + s[1..];
    }
  }

  /** Insertion sort; earlier elements are inserted last, so they end up in
      front of later elements of equal rank. */
  function Sort<T>(s: seq<T>, rank: T -> int): (r: seq<T>)
    ensures multiset(r) == multiset(s)
    ensures IsStableSort(s, r, rank)
  {
    if |s| == 0 then []
    else
      var t := Sort(s[1..], rank);
      InsertSorted(s[0], t, rank);
      InsertWithRank(s[0], t, rank);
      assert s == [s[0]] + s[1..];
      Insert(s[0], t, rank)
  }

  lemma {:induction false} WithRankEmpty<T>(s: seq<T>, rank: T -> int)
    requires forall k :: WithRank(s, rank, k) == []
    ensures s == []
  {
    if |s| > 0 {
      WithRankMember(s, rank, rank(s[0]), s[0]);
    }
  }

  /** The first element of a sequence sorted by rank has the least rank. */
  lemma FirstHasLeastRank<T>(a: seq<T>, rank: T -> int, x: T)
    requires SortedBy(a, rank) && x in a
    ensures rank(a[0]) <= rank(x)
  {
    var j :| 0 <= j < |a| && a[j] == x;
    if j > 0 {
      assert rank(a[0]) <= rank(a[j]);
    }
  }

  /** Two sorted sequences with the same equal-rank subsequences start with
      the same element, and their tails again have the same subsequences. */
  lemma {:induction false} SameHead<T>(a: seq<T>, b: seq<T>, rank: T -> int)
    requires |a| > 0 && |b| > 0
    requires SortedBy(a, rank) && SortedBy(b, rank)
    requires forall k :: WithRank(a, rank, k) == WithRank(b, rank, k)
    ensures a[0] == b[0]
    ensures forall k :: WithRank(a[1..], rank, k) == WithRank(b[1..], rank, k)
  {
    var m, n := rank(a[0]), rank(b[0]);
    WithRankMember(b, rank, n, b[0]);
    WithRankMember(a, rank, n, b[0]);
    FirstHasLeastRank(a, rank, b[0]);
    WithRankMember(a, rank, m, a[0]);
    WithRankMember(b, rank, m, a[0]);
    FirstHasLeastRank(b, rank, a[0]);
    assert m == n;
    assert WithRank(a, rank, m) == [a[0]] + WithRank(a[1..], rank, m);
    assert WithRank(b, rank, m) == [b[0]] + WithRank(b[1..], rank, m);
    assert WithRank(a, rank, m)[0] == WithRank(b, rank, m)[0];
    forall k ensures WithRank(a[1..], rank, k) == WithRank(b[1..], rank, k) {
      if k == m {
        assert WithRank(a[1..], rank, k) == WithRank(a, rank, k)[1..];
        assert WithRank(b[1..], rank, k) == WithRank(b, rank, k)[1..];
      } else {
        assert WithRank(a[1..], rank, k) == WithRank(a, rank, k);
        assert WithRank(b[1..], rank, k) == WithRank(b, rank, k);
      }
    }
  }

  /** A stable sort is unique: two sequences ordered by rank whose
      equal-rank subsequences all agree are the same sequence. */
  lemma {:induction false} StableSortUnique<T>(a: seq<T>, b: seq<T>, rank: T -> int)
    requires SortedBy(a, rank) && SortedBy(b, rank)
    requires forall k :: WithRank(a, rank, k) == WithRank(b, rank, k)
    ensures a == b
  {
    if |a| == 0 {
      WithRankEmpty(b, rank);
    } else if |b| == 0 {
      WithRankEmpty(a, rank);
    } else {
      SameHead(a, b, rank);
      assert SortedBy(a[1..], rank);
      assert SortedBy(b[1..], rank);
      StableSortUnique(a[1..], b[1..], rank);
      assert a == [a[0]] + a[1..];
      assert b == [b[0]] + b[1..];
    }
  }

  /** The insertion sort is exactly the stable sort: a sequence is a stable
      sort of `s` if and only if it is `Sort(s, rank)`. */
  lemma SortMeetsSpec<T>(s: seq<T>, r: seq<T>, rank: T -> int)
    ensures IsStableSort(s, r, rank) <==> r == Sort(s, rank)
  {
    if IsStableSort(s, r, rank) {
      StableSortUnique(r, Sort(s, rank), rank);
    }
  }

  /** A stable sort is a permutation of its input. */
  lemma {:induction false} StableSortIsPermutation<T>(s: seq<T>, r: seq<T>, rank: T -> int)
    requires IsStableSort(s, r, rank)
    ensures multiset(r) == multiset(s)
  {
    SortMeetsSpec(s, r, rank);
  }
}
