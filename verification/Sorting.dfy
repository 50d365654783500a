/** The stable library sort that the evaluation code calls (`Array.prototype.sort`, Python's
    `sorted`), with the facts about order statistics and counts that its callers rely on. */
module Sorting {

  ghost predicate TotalPreorder<T(!new)>(le: (T, T) -> bool) {
    && (forall x, y :: le(x, y) || le(y, x))
    && (forall x, y, z :: le(x, y) && le(y, z) ==> le(x, z))
  }

  ghost predicate Sorted<T>(s: seq<T>, le: (T, T) -> bool) {
    forall i, j :: 0 <= i < j < |s| ==> le(s[i], s[j])
  }

  /** Every earlier element is related to every later one. */
  ghost predicate Pairwise<T>(s: seq<T>, before: (T, T) -> bool) {
    forall i, j :: 0 <= i < j < |s| ==> before(s[i], s[j])
  }

  /** Elements that compare equal keep the order `before`. */
  ghost predicate StableFor<T>(s: seq<T>, le: (T, T) -> bool, before: (T, T) -> bool) {
    forall i, j :: 0 <= i < j < |s| && le(s[j], s[i]) ==> before(s[i], s[j])
  }

  function Insert<T>(x: T, s: seq<T>, le: (T, T) -> bool): (r: seq<T>)
    ensures |r| == |s| + 1
  {
    if s == [] || le(x, s[0]) then [x] + s else [s[0]] + Insert(x, s[1..], le)
  }

  function Sort<T>(s: seq<T>, le: (T, T) -> bool): (r: seq<T>)
    ensures |r| == |s|
  {
    if s == [] then [] else Insert(s[0], Sort(s[1..], le), le)
  }

  lemma {:induction false} InsertPermutes<T>(x: T, s: seq<T>, le: (T, T) -> bool)
    ensures multiset(Insert(x, s, le)) == multiset([x] + s)
  {
    if s == [] || le(x, s[0]) {
    } else {
      InsertPermutes(x, s[1..], le);
      assert s == [s[0]] + s[1..];
    }
  }

  lemma {:induction false} SortPermutes<T>(s: seq<T>, le: (T, T) -> bool)
    ensures multiset(Sort(s, le)) == multiset(s)
  {
    if s != [] {
      SortPermutes(s[1..], le);
      InsertPermutes(s[0], Sort(s[1..], le), le);
      assert s == [s[0]] + s[1..];
    }
  }

  lemma {:induction false} InsertSorts<T(!new)>(x: T, s: seq<T>, le: (T, T) -> bool)
    requires TotalPreorder(le) && Sorted(s, le)
    ensures Sorted(Insert(x, s, le), le)
  {
    if s != [] && !le(x, s[0]) {
      InsertSorts(x, s[1..], le);
      InsertPermutes(x, s[1..], le);
      var t := Insert(x, s[1..], le);
      forall j | 0 <= j < |t| ensures le(s[0], t[j]) {
        assert t[j] in multiset(t);
        assert t[j] in [x] + s[1..];
      }
    }
  }

  lemma {:induction false} SortSorts<T(!new)>(s: seq<T>, le: (T, T) -> bool)
    requires TotalPreorder(le)
    ensures Sorted(Sort(s, le), le)
  {
    if s != [] {
      SortSorts(s[1..], le);
      InsertSorts(s[0], Sort(s[1..], le), le);
    }
  }

  lemma {:induction false} InsertStable<T>(x: T, s: seq<T>, le: (T, T) -> bool, before: (T, T) -> bool)
    requires StableFor(s, le, before)
    requires forall y :: y in s ==> before(x, y)
    ensures StableFor(Insert(x, s, le), le, before)
  {
    if s != [] && !le(x, s[0]) {
      InsertStable(x, s[1..], le, before);
      InsertPermutes(x, s[1..], le);
      var t := Insert(x, s[1..], le);
      forall j | 0 <= j < |t| && le(t[j], s[0]) ensures before(s[0], t[j]) {
        assert t[j] in multiset(t);
        assert t[j] in [x] + s[1..];
        var k :| 1 <= k < |s| && s[k] == t[j];
      }
    }
  }

  lemma {:induction false} SortStable<T>(s: seq<T>, le: (T, T) -> bool, before: (T, T) -> bool)
    requires Pairwise(s, before)
    ensures StableFor(Sort(s, le), le, before)
  {
    if s != [] {
      SortStable(s[1..], le, before);
      SortPermutes(s[1..], le);
      forall y | y in Sort(s[1..], le) ensures before(s[0], y) {
        assert y in multiset(Sort(s[1..], le));
        assert y in s[1..];
      }
      InsertStable(s[0], Sort(s[1..], le), le, before);
    }
  }

  lemma {:induction false} InsertKeepsApart<T>(x: T, s: seq<T>, le: (T, T) -> bool, apart: (T, T) -> bool)
    requires Pairwise(s, apart) && forall y :: y in s ==> apart(x, y) && apart(y, x)
    ensures Pairwise(Insert(x, s, le), apart)
  {
    if s != [] && !le(x, s[0]) {
      InsertKeepsApart(x, s[1..], le, apart);
      InsertPermutes(x, s[1..], le);
      var t := Insert(x, s[1..], le);
      forall j | 0 <= j < |t| ensures apart(s[0], t[j]) {
        assert t[j] in multiset(t);
        assert t[j] in [x] + s[1..];
        assert t[j] in s[1..] ==> exists k :: 1 <= k < |s| && s[k] == t[j];
      }
    }
  }

  /** A symmetric relation between all elements, such as having distinct keys, survives sorting. */
  lemma {:induction false} SortKeepsApart<T>(s: seq<T>, le: (T, T) -> bool, apart: (T, T) -> bool)
    requires forall i, j :: 0 <= i < |s| && 0 <= j < |s| && i != j ==> apart(s[i], s[j])
    ensures Pairwise(Sort(s, le), apart)
  {
    if s != [] {
      SortKeepsApart(s[1..], le, apart);
      SortPermutes(s[1..], le);
      forall y | y in Sort(s[1..], le) ensures apart(s[0], y) && apart(y, s[0]) {
        assert y in multiset(Sort(s[1..], le));
        assert y in s[1..];
        var k :| 1 <= k < |s| && s[k] == y;
      }
      InsertKeepsApart(s[0], Sort(s[1..], le), le, apart);
    }
  }

  /** A sort neither loses nor invents elements. */
  lemma SortMembers<T>(s: seq<T>, le: (T, T) -> bool, x: T)
    ensures x in Sort(s, le) <==> x in s
  {
    SortPermutes(s, le);
    assert x in Sort(s, le) <==> x in multiset(Sort(s, le));
  }

  // ---- counting ----

  function Count<T>(s: seq<T>, p: T -> bool): (n: nat)
    ensures n <= |s|
  {
    if s == [] then 0 else (if p(s[0]) then 1 else 0) + Count(s[1..], p)
  }

  lemma {:induction false} CountConcat<T>(a: seq<T>, b: seq<T>, p: T -> bool)
    ensures Count(a + b, p) == Count(a, p) + Count(b, p)
  {
    if a == [] {
      assert a + b == b;
    } else {
      CountConcat(a[1..], b, p);
      assert (a + b)[1..] == a[1..] + b;
    }
  }

  /** `s` without its element number `j`. */
  function Without<T>(s: seq<T>, j: nat): seq<T>
    requires j < |s|
  {
    s[..j] + s[j + 1..]
  }

  lemma MultisetWithout<T>(s: seq<T>, j: nat)
    requires j < |s|
    ensures multiset(Without(s, j)) == multiset(s) - multiset{s[j]}
  {
    assert s == s[..j] + [s[j]] + s[j + 1..];
  }

  lemma CountWithout<T>(s: seq<T>, j: nat, p: T -> bool)
    requires j < |s|
    ensures Count(s, p) == Count(Without(s, j), p) + (if p(s[j]) then 1 else 0)
  {
    CountConcat(s[..j], s[j + 1..], p);
    CountConcat(s[..j], s[j..], p);
    assert s == s[..j] + s[j..];
    assert s[j..][1..] == s[j + 1..];
  }

  lemma {:induction false} CountOfPermutation<T>(a: seq<T>, b: seq<T>, p: T -> bool)
    requires multiset(a) == multiset(b)
    ensures Count(a, p) == Count(b, p)
  {
    if a == [] {
      assert |multiset(b)| == 0;
    } else {
      assert a[0] in multiset(b);
      var j :| 0 <= j < |b| && b[j] == a[0];
      MultisetWithout(a, 0);
      MultisetWithout(b, j);
      assert Without(a, 0) == a[1..];
      CountOfPermutation(a[1..], Without(b, j), p);
      CountWithout(b, j, p);
    }
  }

  lemma {:induction false} CountAll<T>(s: seq<T>, p: T -> bool)
    requires forall x :: x in s ==> p(x)
    ensures Count(s, p) == |s|
  {
    if s != [] {
      CountAll(s[1..], p);
    }
  }

  lemma {:induction false} CountNone<T>(s: seq<T>, p: T -> bool)
    requires forall x :: x in s ==> !p(x)
    ensures Count(s, p) == 0
  {
    if s != [] {
      CountNone(s[1..], p);
    }
  }

  predicate RealLe(x: real, y: real) { x <= y }

  function SortReals(s: seq<real>): (r: seq<real>)
    ensures |r| == |s|
  {
    Sort(s, RealLe)
  }

  lemma SortRealsSorts(s: seq<real>)
    ensures Sorted(SortReals(s), RealLe)
    ensures multiset(SortReals(s)) == multiset(s)
  {
    SortSorts(s, RealLe);
    SortPermutes(s, RealLe);
  }

  function AtMost(c: real): real -> bool { x => x <= c }

  lemma CountPrefix(r: seq<real>, k: nat, c: real)
    requires Sorted(r, RealLe) && k < |r| && r[k] <= c
    ensures Count(r, AtMost(c)) >= k + 1
  {
    assert r == r[..k + 1] + r[k + 1..];
    CountConcat(r[..k + 1], r[k + 1..], AtMost(c));
    forall x | x in r[..k + 1] ensures AtMost(c)(x) {
      var i :| 0 <= i <= k && r[i] == x;
      assert i < k ==> RealLe(r[i], r[k]);
    }
    CountAll(r[..k + 1], AtMost(c));
  }

  lemma CountSuffix(r: seq<real>, k: nat, c: real)
    requires Sorted(r, RealLe) && k < |r| && r[k] > c
    ensures Count(r, AtMost(c)) <= k
  {
    assert r == r[..k] + r[k..];
    CountConcat(r[..k], r[k..], AtMost(c));
    forall x | x in r[k..] ensures !AtMost(c)(x) {
      var i :| k <= i < |r| && r[i] == x;
      assert k < i ==> RealLe(r[k], r[i]);
    }
    CountNone(r[k..], AtMost(c));
  }

  /** The k-th smallest of a sorted list is at most `c` exactly when more than `k` elements are. */
  lemma RankByCount(r: seq<real>, k: nat, c: real)
    requires Sorted(r, RealLe) && k < |r|
    ensures r[k] <= c <==> Count(r, AtMost(c)) >= k + 1
  {
    if r[k] <= c {
      CountPrefix(r, k, c);
    } else {
      CountSuffix(r, k, c);
    }
  }

  lemma {:induction false} CountMonotone(a: seq<real>, b: seq<real>, c: real)
    requires |a| == |b|
    requires forall i :: 0 <= i < |a| ==> a[i] <= b[i]
    ensures Count(a, AtMost(c)) >= Count(b, AtMost(c))
  {
    if a != [] {
      CountMonotone(a[1..], b[1..], c);
    }
  }

  /** Raising every element raises every order statistic. */
  lemma OrderStatisticMonotone(a: seq<real>, b: seq<real>, k: nat)
    requires |a| == |b| && k < |a|
    requires forall i :: 0 <= i < |a| ==> a[i] <= b[i]
    ensures SortReals(a)[k] <= SortReals(b)[k]
  {
    SortRealsSorts(a);
    SortRealsSorts(b);
    var c := SortReals(b)[k];
    RankByCount(SortReals(b), k, c);
    CountOfPermutation(SortReals(b), b, AtMost(c));
    CountMonotone(a, b, c);
    CountOfPermutation(SortReals(a), a, AtMost(c));
    RankByCount(SortReals(a), k, c);
  }
}
