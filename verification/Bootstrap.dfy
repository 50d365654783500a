/** The paired bootstrap bound of the ship gate and the sign-flip permutation test, over exact reals. */
module Bootstrap {
  import opened Basics
  import opened Random
  import opened Sorting

  // ---- sums ----

  function Sum(xs: seq<real>): real {
    if xs == [] then 0.0 else Sum(xs[..|xs| - 1]) + xs[|xs| - 1]
  }

  function Mean(xs: seq<real>): real {
    if xs == [] then 0.0 else Sum(xs) / |xs| as real
  }

  function Abs(x: real): (y: real)
    ensures y >= 0.0 && (y == x || y == -x)
  {
    if x < 0.0 then -x else x
  }

  /** Sums add up, a single number is its own sum, and so many times the mean is the sum. */
  lemma {:induction false} SumConcat(a: seq<real>, b: seq<real>)
    ensures Sum(a + b) == Sum(a) + Sum(b)
    ensures b == [] || Sum([b[0]]) == b[0]
    ensures b == [] || |b| as real * Mean(b) == Sum(b)
    decreases |b|
  {
    if b == [] {
      assert a + b == a;
    } else {
      var init := b[..|b| - 1];
      SumConcat(a, init);
      assert (a + b)[..|a + b| - 1] == a + init;
      assert [b[0]][..0] == [];
      DivideOut(Sum(b), |b|);
    }
  }

  lemma DivideOut(x: real, n: nat)
    requires n > 0
    ensures n as real * (x / n as real) == x
  {
  }

  // ---- resampling ----

  /** The sum of the first `i` draws of a resample that starts at draw number `start`. */
  function ResampleSum(deltas: seq<real>, rng: Stream, start: nat, i: nat): real
    decreases i
  {
    if i == 0 then 0.0
    else
      var j := Draw(rng, start + i - 1, |deltas|);
      ResampleSum(deltas, rng, start, i - 1) + (if 0 <= j < |deltas| then deltas[j] else 0.0)
  }

  function ResampleMean(deltas: seq<real>, rng: Stream, r: nat): real
    requires deltas != []
  {
    ResampleSum(deltas, rng, r * |deltas|, |deltas|) / |deltas| as real
  }

  function Means(deltas: seq<real>, rng: Stream, resamples: nat): (ms: seq<real>)
    requires deltas != []
    ensures |ms| == resamples
    ensures forall r :: 0 <= r < resamples ==> ms[r] == ResampleMean(deltas, rng, r)
  {
    seq(resamples, r requires 0 <= r < resamples => ResampleMean(deltas, rng, r))
  }

  /** `Math.min(size - 1, Math.max(0, Math.floor(q * size)))`. */
  function Position(q: real, size: nat): (k: nat)
    requires size > 0
    ensures k < size
  {
    var k := (q * size as real).Floor;
    if k < 0 then 0 else if k < size then k else size - 1
  }

  /** What the code reads off a sorted sample: 0 when there is nothing to read. */
  function At(sorted: seq<real>, q: real): real {
    if sorted == [] then 0.0 else sorted[Position(q, |sorted|)]
  }

  /** The `q`-quantile of the resampled means. */
  function Quantile(deltas: seq<real>, rng: Stream, resamples: nat, q: real): real
    requires deltas != []
  {
    At(SortReals(Means(deltas, rng, resamples)), q)
  }

  /** Without mentioning a sort: the bound is at most `c` exactly when more than `Position` of the
      resampled means are. This determines the bound. */
  lemma QuantileByCount(deltas: seq<real>, rng: Stream, resamples: nat, q: real, c: real)
    requires deltas != [] && resamples > 0
    ensures Quantile(deltas, rng, resamples, q) <= c
      <==> Count(Means(deltas, rng, resamples), AtMost(c)) > Position(q, resamples)
  {
    var ms := Means(deltas, rng, resamples);
    SortRealsSorts(ms);
    RankByCount(SortReals(ms), Position(q, resamples), c);
    CountOfPermutation(SortReals(ms), ms, AtMost(c));
  }

  function Below(c: real): real -> bool { x => x < c }

  /** What a quantile is, without a sort and without a position: at most `q` of the sample is below it, and more than
      `q` of it is not above. Below 0 it is the least of the sample, and from 1 on the greatest. */
  ghost predicate IsQuantile(ms: seq<real>, q: real, x: real) {
    && x in ms
    && (0.0 <= q < 1.0 ==>
        && Count(ms, Below(x)) as real <= q * |ms| as real
        && Count(ms, AtMost(x)) as real > q * |ms| as real)
    && (q < 0.0 ==> forall y :: y in ms ==> x <= y)
    && (q >= 1.0 ==> forall y :: y in ms ==> y <= x)
  }

  lemma SortedCounts(ms: seq<real>, k: nat)
    requires k < |ms|
    ensures var x := SortReals(ms)[k];
      x in ms && Count(ms, Below(x)) <= k && Count(ms, AtMost(x)) > k
  {
    var s := SortReals(ms);
    var x := s[k];
    SortRealsSorts(ms);
    SortMembers(ms, RealLe, x);
    RankByCount(s, k, x);
    CountOfPermutation(s, ms, AtMost(x));
    CountOfPermutation(s, ms, Below(x));
    forall y | y in s[k..] ensures !Below(x)(y) {
      var i :| k <= i < |s| && s[i] == y;
      assert i > k ==> RealLe(s[k], s[i]);
    }
    CountNone(s[k..], Below(x));
    CountConcat(s[..k], s[k..], Below(x));
    assert s == s[..k] + s[k..];
  }

  lemma SortedEnds(ms: seq<real>, k: nat)
    requires k < |ms|
    ensures var x := SortReals(ms)[k];
      && (k == 0 ==> forall y :: y in ms ==> x <= y)
      && (k == |ms| - 1 ==> forall y :: y in ms ==> y <= x)
  {
    var s := SortReals(ms);
    var x := s[k];
    SortRealsSorts(ms);
    forall y | y in ms ensures (k == 0 ==> x <= y) && (k == |ms| - 1 ==> y <= x) {
      SortMembers(ms, RealLe, y);
      var i :| 0 <= i < |s| && s[i] == y;
      assert i > k ==> RealLe(s[k], s[i]);
      assert i < k ==> RealLe(s[i], s[k]);
    }
  }

  lemma PositionBounds(q: real, size: nat)
    requires size > 0
    ensures 0.0 <= q < 1.0 ==> Position(q, size) as real <= q * size as real < Position(q, size) as real + 1.0
    ensures q < 0.0 ==> Position(q, size) == 0
    ensures q >= 1.0 ==> Position(q, size) == size - 1
  {
    if q < 0.0 {
      TimesNonNegative(-q, size as real);
    } else if q < 1.0 {
      TimesNonNegative(q, size as real);
      TimesNonNegative(1.0 - q, size as real);
    } else {
      TimesNonNegative(q - 1.0, size as real);
    }
  }

  lemma BetweenCounts(below: nat, upTo: nat, k: nat, y: real)
    requires below <= k < upTo && k as real <= y < k as real + 1.0
    ensures below as real <= y < upTo as real
  {
    assert upTo >= k + 1;
  }

  lemma AtIsQuantile(ms: seq<real>, q: real)
    requires ms != []
    ensures IsQuantile(ms, q, At(SortReals(ms), q))
  {
    var k := Position(q, |ms|);
    var x := SortReals(ms)[k];
    SortedCounts(ms, k);
    SortedEnds(ms, k);
    PositionBounds(q, |ms|);
    if 0.0 <= q < 1.0 {
      BetweenCounts(Count(ms, Below(x)), Count(ms, AtMost(x)), k, q * |ms| as real);
    }
  }

  lemma QuantileIsQuantile(deltas: seq<real>, rng: Stream, resamples: nat, q: real)
    requires deltas != [] && resamples > 0
    ensures IsQuantile(Means(deltas, rng, resamples), q, Quantile(deltas, rng, resamples, q))
  {
    AtIsQuantile(Means(deltas, rng, resamples), q);
  }

  method ResampleMeans(deltas: seq<real>, resamples: nat, rng: Stream) returns (means: seq<real>)
    requires deltas != []
    ensures means == Means(deltas, rng, resamples)
  {
    var n := |deltas|;
    means := [];
    var pos := 0;
    for r := 0 to resamples
      invariant |means| == r && pos == r * n
      invariant forall k :: 0 <= k < r ==> means[k] == ResampleMean(deltas, rng, k)
    {
      var s := 0.0;
      for i := 0 to n
        invariant pos == r * n + i
        invariant s == ResampleSum(deltas, rng, r * n, i)
      {
        var j := Draw(rng, pos, n);
        s := s + (if 0 <= j < n then deltas[j] else 0.0);
        pos := pos + 1;
      }
      means := means + [s / n as real];
    }
  }

  datatype NonInferiorityResult = NonInferiorityResult(mean: real, margin: real, lowerBound: real, nonInferior: bool,
                                                       alpha: real)

  method PairedNonInferiority(deltas: seq<real>, margin: real, alpha: real, resamples: nat, rng: Stream)
    returns (r: NonInferiorityResult)
    ensures r.margin == margin && r.alpha == alpha && r.mean == Mean(deltas)
    ensures r.lowerBound == if deltas == [] then 0.0 else Quantile(deltas, rng, resamples, alpha)
    ensures r.nonInferior <==> r.lowerBound > margin
    ensures deltas != [] && resamples > 0 ==> IsQuantile(Means(deltas, rng, resamples), alpha, r.lowerBound)
    ensures deltas == [] || resamples == 0 ==> r.lowerBound == 0.0
  {
    if |deltas| == 0 {
      return NonInferiorityResult(0.0, margin, 0.0, 0.0 > margin, alpha);
    }
    var means := ResampleMeans(deltas, resamples, rng);
    var lowerBound := At(SortReals(means), alpha);
    if resamples > 0 {
      QuantileIsQuantile(deltas, rng, resamples, alpha);
    }
    r := NonInferiorityResult(Mean(deltas), margin, lowerBound, lowerBound > margin, alpha);
  }

  lemma TimesNonNegative(x: real, y: real)
    requires x >= 0.0 && y >= 0.0
    ensures x * y >= 0.0
  {
  }

  lemma PositionMonotone(p: real, q: real, size: nat)
    requires p <= q && size > 0
    ensures Position(p, size) <= Position(q, size)
  {
    TimesNonNegative(q - p, size as real);
    assert q * size as real == p * size as real + (q - p) * size as real;
  }

  lemma AtMonotone(s: seq<real>, p: real, q: real)
    requires p <= q
    ensures At(SortReals(s), p) <= At(SortReals(s), q)
  {
    if s != [] {
      SortRealsSorts(s);
      PositionMonotone(p, q, |s|);
      var i, j := Position(p, |s|), Position(q, |s|);
      assert i < j ==> RealLe(SortReals(s)[i], SortReals(s)[j]);
    }
  }

  method BootstrapMeanCI(deltas: seq<real>, alpha: real, resamples: nat, rng: Stream) returns (lo: real, hi: real)
    ensures deltas == [] ==> lo == 0.0 && hi == 0.0
    ensures deltas != [] ==> lo == Quantile(deltas, rng, resamples, alpha / 2.0)
    ensures deltas != [] ==> hi == Quantile(deltas, rng, resamples, 1.0 - alpha / 2.0)
    ensures alpha <= 1.0 ==> lo <= hi
    ensures deltas != [] && resamples > 0 ==>
      && IsQuantile(Means(deltas, rng, resamples), alpha / 2.0, lo)
      && IsQuantile(Means(deltas, rng, resamples), 1.0 - alpha / 2.0, hi)
    ensures deltas == [] || resamples == 0 ==> lo == hi == 0.0
  {
    if |deltas| == 0 {
      return 0.0, 0.0;
    }
    var means := ResampleMeans(deltas, resamples, rng);
    var sorted := SortReals(means);
    lo := At(sorted, alpha / 2.0);
    hi := At(sorted, 1.0 - alpha / 2.0);
    if resamples > 0 {
      QuantileIsQuantile(deltas, rng, resamples, alpha / 2.0);
      QuantileIsQuantile(deltas, rng, resamples, 1.0 - alpha / 2.0);
    }
    if alpha <= 1.0 {
      AtMonotone(means, alpha / 2.0, 1.0 - alpha / 2.0);
    }
  }

  // ---- what the bound does when the deltas change ----

  lemma {:induction false} SumMonotone(a: seq<real>, b: seq<real>, rng: Stream, start: nat, i: nat)
    requires |a| == |b| && forall j :: 0 <= j < |a| ==> a[j] <= b[j]
    ensures ResampleSum(a, rng, start, i) <= ResampleSum(b, rng, start, i)
  {
    if i > 0 {
      SumMonotone(a, b, rng, start, i - 1);
    }
  }

  lemma DivMonotone(x: real, y: real, n: nat)
    requires x <= y && n > 0
    ensures x / n as real <= y / n as real
  {
    var d := y - x;
    assert y / n as real == x / n as real + d / n as real;
  }

  lemma MeanMonotone(a: seq<real>, b: seq<real>, rng: Stream, r: nat)
    requires a != [] && |a| == |b| && forall j :: 0 <= j < |a| ==> a[j] <= b[j]
    ensures ResampleMean(a, rng, r) <= ResampleMean(b, rng, r)
  {
    var n := |a|;
    SumMonotone(a, b, rng, r * n, n);
    DivMonotone(ResampleSum(a, rng, r * n, n), ResampleSum(b, rng, r * n, n), n);
  }

  /** Raising any of the paired deltas never lowers the bound, with the same seed. */
  lemma BoundMonotone(a: seq<real>, b: seq<real>, rng: Stream, resamples: nat, q: real)
    requires a != [] && |a| == |b| && forall j :: 0 <= j < |a| ==> a[j] <= b[j]
    ensures Quantile(a, rng, resamples, q) <= Quantile(b, rng, resamples, q)
  {
    if resamples > 0 {
      forall r | 0 <= r < resamples ensures Means(a, rng, resamples)[r] <= Means(b, rng, resamples)[r] {
        MeanMonotone(a, b, rng, r);
      }
      OrderStatisticMonotone(Means(a, rng, resamples), Means(b, rng, resamples), Position(q, resamples));
    }
  }

  function Shifted(xs: seq<real>, c: real): (ys: seq<real>)
    ensures |ys| == |xs| && forall i :: 0 <= i < |xs| ==> ys[i] == xs[i] + c
  {
    seq(|xs|, i requires 0 <= i < |xs| => xs[i] + c)
  }

  lemma {:induction false} SumShifted(a: seq<real>, c: real, rng: Stream, start: nat, i: nat)
    requires InUnit(rng) && a != []
    ensures ResampleSum(Shifted(a, c), rng, start, i) == ResampleSum(a, rng, start, i) + i as real * c
  {
    if i > 0 {
      SumShifted(a, c, rng, start, i - 1);
      DrawInRange(rng, start + i - 1, |a|);
      assert i as real * c == (i - 1) as real * c + c;
    }
  }

  lemma DivShifted(x: real, c: real, n: nat)
    requires n > 0
    ensures (x + n as real * c) / n as real == x / n as real + c
  {
  }

  lemma MeanShifted(a: seq<real>, c: real, rng: Stream, r: nat)
    requires InUnit(rng) && a != []
    ensures ResampleMean(Shifted(a, c), rng, r) == ResampleMean(a, rng, r) + c
  {
    var n := |a|;
    SumShifted(a, c, rng, r * n, n);
    DivShifted(ResampleSum(a, rng, r * n, n), c, n);
  }

  lemma {:induction false} CountShifted(s: seq<real>, c: real, x: real)
    ensures Count(Shifted(s, c), AtMost(x + c)) == Count(s, AtMost(x))
  {
    if s != [] {
      CountShifted(s[1..], c, x);
      assert Shifted(s, c)[1..] == Shifted(s[1..], c);
    }
  }

  lemma MeansShifted(a: seq<real>, c: real, rng: Stream, resamples: nat)
    requires InUnit(rng) && a != []
    ensures Means(Shifted(a, c), rng, resamples) == Shifted(Means(a, rng, resamples), c)
  {
    forall r | 0 <= r < resamples
      ensures Means(Shifted(a, c), rng, resamples)[r] == Means(a, rng, resamples)[r] + c
    {
      MeanShifted(a, c, rng, r);
    }
  }

  lemma SameBoundShifted(a: seq<real>, c: real, rng: Stream, resamples: nat, q: real, x: real)
    requires a != [] && InUnit(rng) && resamples > 0
    ensures Quantile(Shifted(a, c), rng, resamples, q) <= x + c <==> Quantile(a, rng, resamples, q) <= x
  {
    MeansShifted(a, c, rng, resamples);
    CountShifted(Means(a, rng, resamples), c, x);
    QuantileByCount(a, rng, resamples, q, x);
    QuantileByCount(Shifted(a, c), rng, resamples, q, x + c);
  }

  /** Adding `c` to every delta moves the bound by exactly `c`, given at least one resample. */
  lemma BoundShifts(a: seq<real>, c: real, rng: Stream, resamples: nat, q: real)
    requires a != [] && InUnit(rng) && resamples > 0
    ensures Quantile(Shifted(a, c), rng, resamples, q) == Quantile(a, rng, resamples, q) + c
  {
    SameBoundShifted(a, c, rng, resamples, q, Quantile(a, rng, resamples, q));
    SameBoundShifted(a, c, rng, resamples, q, Quantile(Shifted(a, c), rng, resamples, q) - c);
  }

  /** Without resamples the bound is 0 whatever the deltas are, so it cannot follow a shift: the shift
      law holds exactly when there is a resample or nothing to shift by. */
  lemma ShiftNeedsResamples(a: seq<real>, c: real, rng: Stream, resamples: nat, q: real)
    requires a != [] && InUnit(rng)
    ensures Quantile(Shifted(a, c), rng, resamples, q) == Quantile(a, rng, resamples, q) + c
      <==> resamples > 0 || c == 0.0
  {
    if resamples > 0 {
      BoundShifts(a, c, rng, resamples, q);
    }
  }

  lemma {:induction false} SumBetween(a: seq<real>, lo: real, hi: real, rng: Stream, start: nat, i: nat)
    requires InUnit(rng) && a != [] && forall j :: 0 <= j < |a| ==> lo <= a[j] <= hi
    ensures i as real * lo <= ResampleSum(a, rng, start, i) <= i as real * hi
  {
    if i > 0 {
      SumBetween(a, lo, hi, rng, start, i - 1);
      DrawInRange(rng, start + i - 1, |a|);
      assert i as real * lo == (i - 1) as real * lo + lo;
      assert i as real * hi == (i - 1) as real * hi + hi;
    }
  }

  lemma DivTimes(x: real, n: nat)
    requires n > 0
    ensures n as real * x / n as real == x
  {
  }

  lemma DivBetween(x: real, lo: real, hi: real, n: nat)
    requires n > 0 && n as real * lo <= x <= n as real * hi
    ensures lo <= x / n as real <= hi
  {
    DivMonotone(n as real * lo, x, n);
    DivMonotone(x, n as real * hi, n);
    DivTimes(lo, n);
    DivTimes(hi, n);
  }

  lemma MeanBetween(a: seq<real>, lo: real, hi: real, rng: Stream, r: nat)
    requires a != [] && InUnit(rng) && forall j :: 0 <= j < |a| ==> lo <= a[j] <= hi
    ensures lo <= ResampleMean(a, rng, r) <= hi
  {
    var n := |a|;
    SumBetween(a, lo, hi, rng, r * n, n);
    DivBetween(ResampleSum(a, rng, r * n, n), lo, hi, n);
  }

  lemma ResampledBetween(a: seq<real>, lo: real, hi: real, rng: Stream, resamples: nat, q: real)
    requires a != [] && InUnit(rng) && resamples > 0 && forall j :: 0 <= j < |a| ==> lo <= a[j] <= hi
    ensures lo <= Quantile(a, rng, resamples, q) <= hi
  {
    var ms := Means(a, rng, resamples);
    var b := Quantile(a, rng, resamples, q);
    assert b in SortReals(ms);
    SortMembers(ms, RealLe, b);
    var r :| 0 <= r < resamples && ms[r] == b;
    MeanBetween(a, lo, hi, rng, r);
  }

  /** The bound lies between the smallest and the largest delta, exactly when there is a resample or 0, the answer
      without resamples, lies there too. */
  lemma BoundBetween(a: seq<real>, lo: real, hi: real, rng: Stream, resamples: nat, q: real)
    requires a != [] && InUnit(rng) && forall j :: 0 <= j < |a| ==> lo <= a[j] <= hi
    ensures lo <= Quantile(a, rng, resamples, q) <= hi <==> resamples > 0 || lo <= 0.0 <= hi
  {
    if resamples > 0 {
      ResampledBetween(a, lo, hi, rng, resamples, q);
    }
  }

  // ---- the permutation test ----

  /** The first `i` deltas with the signs that the stream gives them from draw `start` on. */
  function FlipSum(deltas: seq<real>, rng: Stream, start: nat, i: nat): real
    requires i <= |deltas|
  {
    if i == 0 then 0.0
    else FlipSum(deltas, rng, start, i - 1) + (if rng(start + i - 1) < 0.5 then deltas[i - 1] else -deltas[i - 1])
  }

  /** Resample `r` is at least as extreme as what was observed. */
  predicate Extreme(deltas: seq<real>, rng: Stream, r: nat)
    requires deltas != []
  {
    Abs(FlipSum(deltas, rng, r * |deltas|, |deltas|) / |deltas| as real) >= Abs(Mean(deltas))
  }

  function ExtremeCount(deltas: seq<real>, rng: Stream, resamples: nat): (c: nat)
    requires deltas != []
    ensures c <= resamples
  {
    if resamples == 0 then 0
    else ExtremeCount(deltas, rng, resamples - 1) + (if Extreme(deltas, rng, resamples - 1) then 1 else 0)
  }

  function PValue(deltas: seq<real>, rng: Stream, resamples: nat): real {
    if deltas == [] || Mean(deltas) == 0.0 then 1.0
    else (ExtremeCount(deltas, rng, resamples) + 1) as real / (resamples + 1) as real
  }

  method PairedPermutationTest(deltas: seq<real>, resamples: nat, rng: Stream) returns (p: real)
    ensures p == PValue(deltas, rng, resamples)
    ensures 0.0 < p <= 1.0
  {
    var n := |deltas|;
    if n == 0 {
      return 1.0;
    }
    var observed := Abs(Mean(deltas));
    if observed == 0.0 {
      return 1.0;
    }
    var atLeast := 0;
    var pos := 0;
    for r := 0 to resamples
      invariant pos == r * n
      invariant atLeast == ExtremeCount(deltas, rng, r)
    {
      var s := 0.0;
      for i := 0 to n
        invariant pos == r * n + i
        invariant s == FlipSum(deltas, rng, r * n, i)
      {
        s := s + (if rng(pos) < 0.5 then deltas[i] else -deltas[i]);
        pos := pos + 1;
      }
      assert s == FlipSum(deltas, rng, r * n, n);
      if Abs(s / n as real) >= observed {
        atLeast := atLeast + 1;
      }
      assert (r + 1) * n == r * n + n;
    }
    p := (atLeast + 1) as real / (resamples + 1) as real;
    RatioInUnit((atLeast + 1) as real, (resamples + 1) as real);
  }

  function Negated(xs: seq<real>): (ys: seq<real>)
    ensures |ys| == |xs| && forall i :: 0 <= i < |xs| ==> ys[i] == -xs[i]
  {
    seq(|xs|, i requires 0 <= i < |xs| => -xs[i])
  }

  lemma {:induction false} FlipNegated(deltas: seq<real>, rng: Stream, start: nat, i: nat)
    requires i <= |deltas|
    ensures FlipSum(Negated(deltas), rng, start, i) == -FlipSum(deltas, rng, start, i)
  {
    if i > 0 {
      FlipNegated(deltas, rng, start, i - 1);
    }
  }

  lemma {:induction false} SumNegated(xs: seq<real>)
    ensures Sum(Negated(xs)) == -Sum(xs)
  {
    if xs != [] {
      SumNegated(xs[..|xs| - 1]);
      assert Negated(xs)[..|xs| - 1] == Negated(xs[..|xs| - 1]);
    }
  }

  lemma DivNegated(x: real, n: nat)
    requires n > 0
    ensures -x / n as real == -(x / n as real)
  {
  }

  lemma {:induction false} CountNegated(deltas: seq<real>, rng: Stream, resamples: nat)
    requires deltas != []
    ensures ExtremeCount(Negated(deltas), rng, resamples) == ExtremeCount(deltas, rng, resamples)
  {
    if resamples > 0 {
      var r, n := resamples - 1, |deltas|;
      CountNegated(deltas, rng, r);
      FlipNegated(deltas, rng, r * n, n);
      DivNegated(FlipSum(deltas, rng, r * n, n), n);
      SumNegated(deltas);
      DivNegated(Sum(deltas), n);
      assert Extreme(Negated(deltas), rng, r) == Extreme(deltas, rng, r);
    }
  }

  /** Swapping the two configurations (negating every delta) leaves the p-value as it is. */
  lemma PValueTwoSided(deltas: seq<real>, rng: Stream, resamples: nat)
    ensures PValue(Negated(deltas), rng, resamples) == PValue(deltas, rng, resamples)
  {
    if deltas != [] {
      SumNegated(deltas);
      DivNegated(Sum(deltas), |deltas|);
      CountNegated(deltas, rng, resamples);
    }
  }
}
