/** `benjaminiHochberg`: the sort-based procedure against a definition by counting. Numbers are exact
    reals. */
module BenjaminiHochberg {
  import opened Sorting

  datatype BHResult = BHResult(index: nat, p: real, critical: real, rejected: bool)

  datatype Entry = Entry(p: real, index: nat)

  predicate ByP(a: Entry, b: Entry) { a.p <= b.p }

  /** The share of the rate that rank `k` of `m` may use up. */
  function Critical(k: nat, m: nat, q: real): (c: real)
    requires m > 0
    ensures c * m as real == k as real * q
  {
    TimesBack(k as real, m as real, q);
    k as real / m as real * q
  }

  lemma TimesBack(k: real, m: real, q: real)
    requires m > 0.0
    ensures k / m * q * m == k * q
  {
    assert k / m * m == k;
  }

  // ---- the definition by counting ----

  /** At least `k` of the p-values are at most `k q / m`. */
  predicate Enough(ps: seq<real>, q: real, k: nat)
    requires |ps| > 0
  {
    Count(ps, AtMost(Critical(k, |ps|, q))) >= k
  }

  /** The largest such `k`, 0 if there is none. */
  ghost predicate IsCutoff(ps: seq<real>, q: real, k: nat)
    requires |ps| > 0
  {
    && k <= |ps|
    && (k > 0 ==> Enough(ps, q, k))
    && forall j :: k < j <= |ps| ==> !Enough(ps, q, j)
  }

  ghost predicate Rejected(ps: seq<real>, q: real, k: nat, p: real)
    requires |ps| > 0
  {
    k > 0 && p <= Critical(k, |ps|, q)
  }

  /** The false-discovery rate is not negative, or the p-values are not. */
  ghost predicate Sensible(ps: seq<real>, q: real) {
    q >= 0.0 || forall i :: 0 <= i < |ps| ==> ps[i] >= 0.0
  }

  /** No more p-values than the cutoff says are within its critical value. */
  predicate Exact(ps: seq<real>, q: real, k: nat)
    requires |ps| > 0
  {
    k == 0 || Count(ps, AtMost(Critical(k, |ps|, q))) == k
  }

  // ---- the procedure ----

  function Tagged(ps: seq<real>): (r: seq<Entry>)
    ensures |r| == |ps| && forall i :: 0 <= i < |ps| ==> r[i] == Entry(ps[i], i)
  {
    seq(|ps|, i requires 0 <= i < |ps| => Entry(ps[i], i))
  }

  function Keys(es: seq<Entry>): (r: seq<real>)
    ensures |r| == |es| && forall i :: 0 <= i < |es| ==> r[i] == es[i].p
  {
    seq(|es|, i requires 0 <= i < |es| => es[i].p)
  }

  function KeyAtMost(c: real): Entry -> bool { (e: Entry) => e.p <= c }

  lemma {:induction false} CountKeys(es: seq<Entry>, c: real)
    ensures Count(es, KeyAtMost(c)) == Count(Keys(es), AtMost(c))
  {
    if es != [] {
      assert Keys(es)[1..] == Keys(es[1..]);
      CountKeys(es[1..], c);
    }
  }

  /** The sorted list: an ordered rearrangement, so that ranks can be read as counts. */
  lemma SortedKeys(ps: seq<real>)
    ensures var r := Sort(Tagged(ps), ByP);
      && |r| == |ps|
      && Sorted(Keys(r), RealLe)
      && (forall e :: e in r <==> e in Tagged(ps))
      && (forall i, j :: 0 <= i < j < |r| ==> r[i].index != r[j].index)
  {
    var es := Tagged(ps);
    var r := Sort(es, ByP);
    SortSorts(es, ByP);
    assert forall i, j :: 0 <= i < j < |r| ==> ByP(r[i], r[j]);
    forall e ensures e in r <==> e in es {
      SortMembers(es, ByP, e);
    }
    SortKeepsApart(es, ByP, OtherIndex);
    assert forall i, j :: 0 <= i < j < |r| ==> OtherIndex(r[i], r[j]);
  }

  lemma SortedCount(ps: seq<real>, c: real)
    ensures Count(Keys(Sort(Tagged(ps), ByP)), AtMost(c)) == Count(ps, AtMost(c))
  {
    var es := Tagged(ps);
    var r := Sort(es, ByP);
    SortPermutes(es, ByP);
    CountKeys(r, c);
    CountKeys(es, c);
    CountOfPermutation(r, es, KeyAtMost(c));
    assert Keys(es) == ps;
  }

  predicate OtherIndex(a: Entry, b: Entry) { a.index != b.index }

  /** `sorted[k-1].p <= k q / m` says the same as `Enough`. */
  lemma RankIsCount(ps: seq<real>, q: real, k: nat)
    requires 0 < k <= |ps|
    ensures Sort(Tagged(ps), ByP)[k - 1].p <= Critical(k, |ps|, q) <==> Enough(ps, q, k)
  {
    SortedKeys(ps);
    SortedCount(ps, Critical(k, |ps|, q));
    RankByCount(Keys(Sort(Tagged(ps), ByP)), k - 1, Critical(k, |ps|, q));
  }

  lemma CriticalMonotone(m: nat, j: nat, k: nat, q: real)
    requires m > 0 && j <= k && q >= 0.0
    ensures Critical(j, m, q) <= Critical(k, m, q)
  {
    assert j as real / m as real <= k as real / m as real;
  }

  lemma CriticalNegative(m: nat, k: nat, q: real)
    requires m > 0 && k > 0 && q < 0.0
    ensures Critical(k, m, q) < 0.0
  {
    assert k as real / m as real > 0.0;
  }

  /** The p-value at place `i` of the sorted list is within a bound exactly when more than `i` p-values are. */
  lemma WithinByCount(ps: seq<real>, c: real, i: nat)
    requires i < |ps|
    ensures i < |Sort(Tagged(ps), ByP)| && (Sort(Tagged(ps), ByP)[i].p <= c <==> Count(ps, AtMost(c)) > i)
  {
    SortedKeys(ps);
    SortedCount(ps, c);
    RankByCount(Keys(Sort(Tagged(ps), ByP)), i, c);
  }

  /** Being ranked within the cutoff and being within its critical value are one thing for the whole family exactly
      when the cutoff is exact. */
  lemma RankMeansRejected(ps: seq<real>, q: real, k: nat)
    requires |ps| > 0 && IsCutoff(ps, q, k)
    ensures |Sort(Tagged(ps), ByP)| == |ps|
    ensures Exact(ps, q, k) <==>
      forall i :: 0 <= i < |ps| ==> (i + 1 <= k <==> Rejected(ps, q, k, Sort(Tagged(ps), ByP)[i].p))
  {
    SortedKeys(ps);
    var r, c := Sort(Tagged(ps), ByP), Critical(k, |ps|, q);
    forall i | 0 <= i < |ps| ensures r[i].p <= c <==> Count(ps, AtMost(c)) > i {
      WithinByCount(ps, c, i);
    }
    if 0 < k < Count(ps, AtMost(c)) {
      assert Rejected(ps, q, k, r[k].p);
    }
  }

  lemma {:induction false} CountGrows(ps: seq<real>, c: real, d: real)
    requires c <= d
    ensures Count(ps, AtMost(c)) <= Count(ps, AtMost(d))
  {
    if ps != [] {
      CountGrows(ps[1..], c, d);
    }
  }

  /** It is, for every rate that is not negative and for p-values that are not. */
  lemma SensibleIsExact(ps: seq<real>, q: real, k: nat)
    requires |ps| > 0 && Sensible(ps, q) && IsCutoff(ps, q, k)
    ensures Exact(ps, q, k)
  {
    if k > 0 {
      if q >= 0.0 {
        if k < |ps| {
          CriticalMonotone(|ps|, k, k + 1, q);
          CountGrows(ps, Critical(k, |ps|, q), Critical(k + 1, |ps|, q));
          assert !Enough(ps, q, k + 1);
        }
      } else {
        CriticalNegative(|ps|, k, q);
        NoneWithin(ps, Critical(k, |ps|, q));
      }
    }
  }

  lemma {:induction false} NoneWithin(ps: seq<real>, c: real)
    requires forall i :: 0 <= i < |ps| ==> ps[i] > c
    ensures Count(ps, AtMost(c)) == 0
  {
    if ps != [] {
      NoneWithin(ps[1..], c);
    }
  }

  /** It need not be for a negative rate: here both p-values are within the critical value of rank 1. */
  lemma NegativeRateDisagrees()
    ensures IsCutoff([-0.6, -0.7], -1.0, 1) && !Exact([-0.6, -0.7], -1.0, 1)
  {
    var ps := [-0.6, -0.7];
    assert ps[1..] == [-0.7] && ps[1..][1..] == [];
    assert Critical(1, 2, -1.0) == -0.5 && Critical(2, 2, -1.0) == -1.0;
    assert Count(ps, AtMost(-0.5)) == 1 + Count([-0.7], AtMost(-0.5));
    assert Count(ps, AtMost(-1.0)) == Count([-0.7], AtMost(-1.0));
  }

  /** Every family of `m` p-values has an exact cutoff at rate `q`. */
  ghost predicate AlwaysExact(m: nat, q: real) {
    forall ps: seq<real>, k: nat :: |ps| == m > 0 && IsCutoff(ps, q, k) ==> Exact(ps, q, k)
  }

  lemma {:induction false} AllEqual(n: nat, p: real, c: real)
    ensures Count(seq(n, _ => p), AtMost(c)) == if p <= c then n else 0
  {
    if n > 0 {
      assert seq(n, _ => p)[1..] == seq(n - 1, _ => p);
      AllEqual(n - 1, p, c);
    }
  }

  /** For a negative rate, p-values that all lie between the critical values of ranks 1 and 2. */
  lemma BetweenRanks(m: nat, q: real) returns (ps: seq<real>)
    requires m >= 2 && q < 0.0
    ensures |ps| == m && IsCutoff(ps, q, 1) && !Exact(ps, q, 1)
  {
    var p := 3.0 * q / (2 * m) as real;
    ps := seq(m, _ => p);
    assert Critical(1, m, q) > p > Critical(2, m, q);
    AllEqual(m, p, Critical(1, m, q));
    forall j | 1 < j <= m ensures !Enough(ps, q, j) {
      CriticalFalls(m, 2, j, q);
      AllEqual(m, p, Critical(j, m, q));
    }
  }

  lemma CriticalFalls(m: nat, j: nat, k: nat, q: real)
    requires m > 0 && j <= k && q <= 0.0
    ensures Critical(j, m, q) >= Critical(k, m, q)
  {
    assert j as real / m as real <= k as real / m as real;
  }

  /** All families of a size have exact cutoffs if and only if the rate is not negative, or there is but one
      p-value. */
  lemma AlwaysExactExactly(m: nat, q: real)
    requires m > 0
    ensures AlwaysExact(m, q) <==> q >= 0.0 || m == 1
  {
    if q >= 0.0 {
      forall ps: seq<real>, k: nat | |ps| == m && IsCutoff(ps, q, k) ensures Exact(ps, q, k) {
        SensibleIsExact(ps, q, k);
      }
    } else if m >= 2 {
      var ps := BetweenRanks(m, q);
    }
  }

  /** The 1-based place of p-value number `i` in the sorted list. */
  predicate RankOf(ps: seq<real>, i: nat, rank: nat)
    requires i < |ps|
  {
    0 < rank <= |ps| && Sort(Tagged(ps), ByP)[rank - 1] == Entry(ps[i], i)
  }

  method FindCutoff(ps: seq<real>, q: real, sorted: seq<Entry>) returns (k: nat)
    requires |ps| > 0 && sorted == Sort(Tagged(ps), ByP)
    ensures IsCutoff(ps, q, k)
  {
    k := 0;
    for i := 0 to |ps|
      invariant 0 <= k <= i
      invariant k > 0 ==> Enough(ps, q, k)
      invariant forall j :: k < j <= i ==> !Enough(ps, q, j)
    {
      RankIsCount(ps, q, i + 1);
      if sorted[i].p <= Critical(i + 1, |ps|, q) {
        k := i + 1;
      }
    }
  }

  function RowAt(e: Entry, rank: nat, m: nat, q: real, k: nat): BHResult
    requires m > 0
  {
    BHResult(e.index, e.p, Critical(rank, m, q), rank <= k)
  }

  /** Put each sorted entry's row at the entry's own index. */
  method Scatter(sorted: seq<Entry>, q: real, k: nat) returns (rows: seq<BHResult>)
    requires |sorted| > 0
    requires forall i :: 0 <= i < |sorted| ==> sorted[i].index < |sorted|
    requires forall i, j :: 0 <= i < j < |sorted| ==> sorted[i].index != sorted[j].index
    ensures |rows| == |sorted|
    ensures forall j :: 0 <= j < |sorted| ==> rows[sorted[j].index] == RowAt(sorted[j], j + 1, |sorted|, q, k)
  {
    var m := |sorted|;
    var table := new BHResult[m](_ => BHResult(0, 0.0, 0.0, false));
    for i := 0 to m
      invariant forall j :: 0 <= j < i ==> table[sorted[j].index] == RowAt(sorted[j], j + 1, m, q, k)
    {
      table[sorted[i].index] := RowAt(sorted[i], i + 1, m, q, k);
    }
    rows := table[..];
  }

  /** Rows come back in input order, each with the critical value of its rank and rejected exactly up to the cutoff
      rank. All verdicts are those of the definition by counting exactly when the cutoff is exact. */
  method BenjaminiHochberg(ps: seq<real>, q: real) returns (rows: seq<BHResult>, ghost maxK: nat)
    ensures |rows| == |ps|
    ensures |ps| > 0 ==> IsCutoff(ps, q, maxK)
    ensures forall i :: 0 <= i < |ps| ==> rows[i].index == i && rows[i].p == ps[i]
    ensures forall i :: 0 <= i < |ps| ==> HasRow(ps, q, maxK, i, rows[i])
    ensures |ps| > 0 ==> (Exact(ps, q, maxK) <==> AllCounted(ps, q, maxK, rows))
    ensures |ps| > 0 && Sensible(ps, q) ==> AllCounted(ps, q, maxK, rows)
  {
    maxK := 0;
    if |ps| == 0 {
      return [], 0;
    }
    var sorted := Sort(Tagged(ps), ByP);
    var k := FindCutoff(ps, q, sorted);
    maxK := k;
    SortedKeys(ps);
    forall i | 0 <= i < |ps| ensures sorted[i].index < |ps| && sorted[i].p == ps[sorted[i].index] {
      assert sorted[i] in Tagged(ps);
    }
    rows := Scatter(sorted, q, k);
    forall i | 0 <= i < |ps|
      ensures rows[i].index == i && rows[i].p == ps[i] && HasRow(ps, q, k, i, rows[i])
    {
      RowMeans(ps, q, k, sorted, rows, i);
    }
    VerdictsCounted(ps, q, k, sorted, rows);
    if Sensible(ps, q) {
      SensibleIsExact(ps, q, k);
    }
  }

  /** Every row's verdict is that of the definition by counting. */
  ghost predicate AllCounted(ps: seq<real>, q: real, k: nat, rows: seq<BHResult>)
    requires |ps| > 0 && |rows| == |ps|
  {
    forall i :: 0 <= i < |ps| ==> (rows[i].rejected <==> Rejected(ps, q, k, ps[i]))
  }

  ghost predicate IsRow(row: BHResult, i: nat, p: real, rank: nat, m: nat, q: real, k: nat) {
    row.index == i && row.p == p && row.critical * m as real == rank as real * q && (row.rejected <==> rank <= k)
  }

  lemma RowIs(e: Entry, rank: nat, m: nat, q: real, k: nat)
    requires m > 0
    ensures IsRow(RowAt(e, rank, m, q, k), e.index, e.p, rank, m, q, k)
  {
  }

  ghost predicate HasRow(ps: seq<real>, q: real, k: nat, i: nat, row: BHResult)
    requires i < |ps|
  {
    exists rank :: RankOf(ps, i, rank) && IsRow(row, i, ps[i], rank, |ps|, q, k)
  }

  ghost predicate Scattered(ps: seq<real>, q: real, k: nat, sorted: seq<Entry>, rows: seq<BHResult>) {
    && |rows| == |ps| == |sorted| > 0
    && (forall j :: 0 <= j < |sorted| ==> sorted[j].index < |ps| && sorted[j].p == ps[sorted[j].index])
    && forall j :: 0 <= j < |sorted| ==> rows[sorted[j].index] == RowAt(sorted[j], j + 1, |ps|, q, k)
  }

  lemma RowMeans(ps: seq<real>, q: real, k: nat, sorted: seq<Entry>, rows: seq<BHResult>, i: nat)
    requires i < |ps| && sorted == Sort(Tagged(ps), ByP) && Scattered(ps, q, k, sorted, rows)
    ensures rows[i].index == i && rows[i].p == ps[i] && HasRow(ps, q, k, i, rows[i])
    ensures exists j :: 0 <= j < |sorted| && sorted[j] == Entry(ps[i], i)
  {
    SortMembers(Tagged(ps), ByP, Tagged(ps)[i]);
    var j :| 0 <= j < |sorted| && sorted[j] == Entry(ps[i], i);
    RowIs(sorted[j], j + 1, |ps|, q, k);
    assert RankOf(ps, i, j + 1);
  }

  lemma VerdictsCounted(ps: seq<real>, q: real, k: nat, sorted: seq<Entry>, rows: seq<BHResult>)
    requires |ps| > 0 && sorted == Sort(Tagged(ps), ByP) && IsCutoff(ps, q, k) && Scattered(ps, q, k, sorted, rows)
    ensures Exact(ps, q, k) <==> AllCounted(ps, q, k, rows)
  {
    RankMeansRejected(ps, q, k);
    if Exact(ps, q, k) {
      forall i | 0 <= i < |ps| ensures rows[i].rejected <==> Rejected(ps, q, k, ps[i]) {
        RowMeans(ps, q, k, sorted, rows, i);
        var j :| 0 <= j < |sorted| && sorted[j] == Entry(ps[i], i);
        assert rows[sorted[j].index].rejected <==> j + 1 <= k;
      }
    } else {
      var j :| 0 <= j < |ps| && (j + 1 <= k) != Rejected(ps, q, k, sorted[j].p);
      assert rows[sorted[j].index].rejected <==> j + 1 <= k;
    }
  }

  // ---- consequences ----

  /** Reordering the family changes nothing but the order of the answers: the cutoff is the same, and
      so each p-value's verdict; in particular ties cannot matter. */
  lemma PermutationEquivariant(ps: seq<real>, qs: seq<real>, q: real, j: nat, k: nat, p: real)
    requires |ps| > 0 && multiset(ps) == multiset(qs)
    requires |qs| > 0 && IsCutoff(ps, q, j) && IsCutoff(qs, q, k)
    ensures j == k && (Rejected(ps, q, j, p) <==> Rejected(qs, q, k, p))
  {
    assert |ps| == |multiset(ps)| == |qs|;
    forall n | 0 <= n <= |ps| ensures Enough(ps, q, n) <==> Enough(qs, q, n) {
      CountOfPermutation(ps, qs, AtMost(Critical(n, |ps|, q)));
    }
  }

  lemma CriticalInRate(m: nat, k: nat, q: real, q': real)
    requires m > 0 && q <= q'
    ensures Critical(k, m, q) <= Critical(k, m, q')
  {
    assert k as real / m as real >= 0.0;
  }

  /** A larger false-discovery rate has at least as large a cutoff, so every verdict by rank is kept, whatever the
      sign of the rates; and if the larger one is not negative, so is every verdict by counting. */
  lemma MonotoneInRate(ps: seq<real>, q: real, q': real, j: nat, k: nat, p: real)
    requires |ps| > 0 && q <= q' && IsCutoff(ps, q, j) && IsCutoff(ps, q', k)
    ensures j <= k
    ensures q' >= 0.0 && Rejected(ps, q, j, p) ==> Rejected(ps, q', k, p)
  {
    if j > 0 {
      CriticalInRate(|ps|, j, q, q');
      CountGrows(ps, Critical(j, |ps|, q), Critical(j, |ps|, q'));
      assert Enough(ps, q', j);
      if q' >= 0.0 {
        CriticalMonotone(|ps|, j, k, q');
      }
    }
  }
}
