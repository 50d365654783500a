/** Rank orders of the reranker evaluation: the order a provider's scores induce, its reciprocal-rank
    fusion with the dense order, and the fusion of whole result lists. */
module Fusion {
  import opened Basics
  import opened Sorting

  /** A number as the provider may send it. */
  datatype Num = Finite(r: real) | NotFinite

  datatype ScoreHit = ScoreHit(index: Num, score: Num)

  datatype Candidate = Candidate(chunkId: string, path: string, text: string)

  function ToRanked(c: Candidate): RankedChunk { RankedChunk(c.chunkId, c.path) }

  // ---- orders ----

  lemma {:induction false} CountedOnce<T(!new)>(s: seq<T>, x: T)
    requires NoDuplicates(s)
    ensures multiset(s)[x] == if x in s then 1 else 0
  {
    if s != [] {
      var init, last := s[..|s| - 1], s[|s| - 1];
      CountedOnce(init, x);
      assert s == init + [last];
      assert last !in init;
    }
  }

  lemma SameElements<T(!new)>(a: seq<T>, b: seq<T>)
    requires NoDuplicates(a) && NoDuplicates(b) && forall x :: x in a <==> x in b
    ensures multiset(a) == multiset(b)
  {
    forall x ensures multiset(a)[x] == multiset(b)[x] {
      CountedOnce(a, x);
      CountedOnce(b, x);
    }
  }

  lemma PermutationKeepsDistinct<T(!new)>(a: seq<T>, b: seq<T>)
    requires multiset(a) == multiset(b) && NoDuplicates(a)
    ensures NoDuplicates(b)
  {
    forall i, j | 0 <= i < j < |b| ensures b[i] != b[j] {
      if b[i] == b[j] {
        assert b == b[..i] + [b[i]] + b[i + 1..j] + [b[j]] + b[j + 1..];
        assert multiset(b)[b[i]] >= 2;
        CountedOnce(a, b[i]);
      }
    }
  }

  /** `x` comes before `y`. */
  ghost predicate Precedes<T(!new)>(s: seq<T>, x: T, y: T) {
    exists i, j :: 0 <= i < j < |s| && s[i] == x && s[j] == y
  }

  /** In a sorted list, what is strictly better comes first. */
  lemma StrictlyFirst<T(!new)>(s: seq<T>, le: (T, T) -> bool, x: T, y: T)
    requires Sorted(s, le) && x in s && y in s && !le(y, x)
    ensures x != y ==> Precedes(s, x, y)
  {
    var i :| 0 <= i < |s| && s[i] == x;
    var j :| 0 <= j < |s| && s[j] == y;
    assert i <= j;
  }

  // ---- the provider's order ----

  predicate IsInteger(x: Num) { x.Finite? && x.r.Floor as real == x.r }

  predicate Usable(h: ScoreHit, n: nat) {
    IsInteger(h.index) && 0 <= h.index.r.Floor < n && h.score.Finite?
  }

  /** The score a candidate ends up with: that of the first usable hit for it. */
  function FirstScore(hits: seq<ScoreHit>, n: nat, i: int): Option<real> {
    if hits == [] then None
    else
      var init, last := hits[..|hits| - 1], hits[|hits| - 1];
      var earlier := FirstScore(init, n, i);
      if earlier.Some? then earlier
      else if 0 <= i < n && last.index == Finite(i as real) && last.score.Finite? then Some(last.score.r)
      else None
  }

  /** Scored candidates first, by descending score; then the rest; ties in dense order. */
  predicate Above(hits: seq<ScoreHit>, n: nat, i: int, j: int) {
    match (FirstScore(hits, n, i), FirstScore(hits, n, j))
    case (Some(a), Some(b)) => a > b || (a == b && i < j)
    case (Some(_), None) => true
    case (None, Some(_)) => false
    case (None, None) => i < j
  }

  function Lookup(best: map<int, real>, i: int): real {
    if i in best then best[i] else 0.0
  }

  function ByScore(best: map<int, real>): (int, int) -> bool {
    (i: int, j: int) => Lookup(best, i) > Lookup(best, j) || (Lookup(best, i) == Lookup(best, j) && i <= j)
  }

  function Unscored(best: map<int, real>, n: nat): seq<int> {
    if n == 0 then [] else Unscored(best, n - 1) + (if n - 1 in best then [] else [n - 1])
  }

  lemma {:induction false} UnscoredInOrder(best: map<int, real>, n: nat)
    ensures forall i :: i in Unscored(best, n) <==> 0 <= i < n && i !in best
    ensures forall a, b :: 0 <= a < b < |Unscored(best, n)| ==> Unscored(best, n)[a] < Unscored(best, n)[b]
  {
    if n > 0 {
      UnscoredInOrder(best, n - 1);
      var rest := Unscored(best, n - 1);
      assert forall a :: 0 <= a < |rest| ==> rest[a] in rest;
    }
  }

  /** `best` in insertion order: the first usable score of each candidate that has one. */
  ghost predicate FirstScores(hits: seq<ScoreHit>, n: nat, keys: seq<int>, best: map<int, real>) {
    && NoDuplicates(keys)
    && (forall i :: i in keys <==> i in best)
    && forall i ::
      && (i in best <==> FirstScore(hits, n, i).Some?)
      && (i in best ==> 0 <= i < n && Some(best[i]) == FirstScore(hits, n, i))
  }

  lemma OneMoreHit(hits: seq<ScoreHit>, h: ScoreHit, n: nat, keys: seq<int>, best: map<int, real>)
    requires FirstScores(hits, n, keys, best)
    ensures !Usable(h, n) || h.index.r.Floor in best ==> FirstScores(hits + [h], n, keys, best)
    ensures Usable(h, n) && h.index.r.Floor !in best ==>
      FirstScores(hits + [h], n, keys + [h.index.r.Floor], best[h.index.r.Floor := h.score.r])
  {
    assert (hits + [h])[..|hits|] == hits;
  }

  /** The order of all candidates that the hits induce. */
  ghost predicate IsRerank(hits: seq<ScoreHit>, n: nat, order: seq<int>) {
    && multiset(order) == multiset(Indices(n))
    && forall a, b :: 0 <= a < b < |order| ==> Above(hits, n, order[a], order[b])
  }

  lemma ScoredAbove(hits: seq<ScoreHit>, n: nat, keys: seq<int>, best: map<int, real>, i: int, j: int)
    requires FirstScores(hits, n, keys, best) && i in best && i != j
    requires j in best ==> ByScore(best)(i, j)
    ensures Above(hits, n, i, j)
  {
  }

  lemma UnscoredAbove(hits: seq<ScoreHit>, n: nat, keys: seq<int>, best: map<int, real>, i: int, j: int)
    requires FirstScores(hits, n, keys, best) && i !in best && j !in best && i < j
    ensures Above(hits, n, i, j)
  {
  }

  lemma Rearranged(hits: seq<ScoreHit>, n: nat, keys: seq<int>, best: map<int, real>, scored: seq<int>)
    requires FirstScores(hits, n, keys, best) && scored == Sort(keys, ByScore(best))
    ensures NoDuplicates(scored) && Sorted(scored, ByScore(best)) && forall i :: i in scored <==> i in best
  {
    SortSorts(keys, ByScore(best));
    SortPermutes(keys, ByScore(best));
    PermutationKeepsDistinct(keys, scored);
    forall i ensures i in scored <==> i in best {
      SortMembers(keys, ByScore(best), i);
    }
  }

  lemma OrderIsPermutation(order: seq<int>, n: nat)
    requires NoDuplicates(order) && forall x :: x in order <==> 0 <= x < n
    ensures multiset(order) == multiset(Indices(n))
  {
    forall x ensures x in order <==> x in Indices(n) {
      assert 0 <= x < n ==> Indices(n)[x] == x;
    }
    SameElements(order, Indices(n));
  }

  lemma RerankOrdered(hits: seq<ScoreHit>, n: nat, keys: seq<int>, best: map<int, real>, scored: seq<int>,
                      rest: seq<int>)
    requires FirstScores(hits, n, keys, best) && scored == Sort(keys, ByScore(best)) && rest == Unscored(best, n)
    ensures IsRerank(hits, n, scored + rest)
  {
    Rearranged(hits, n, keys, best, scored);
    UnscoredInOrder(best, n);
    var order := scored + rest;
    forall a, b | 0 <= a < b < |order| ensures Above(hits, n, order[a], order[b]) && order[a] != order[b] {
      if a < |scored| {
        assert order[a] in scored;
        if b < |scored| {
          assert ByScore(best)(scored[a], scored[b]);
        } else {
          assert rest[b - |scored|] in rest;
        }
        ScoredAbove(hits, n, keys, best, order[a], order[b]);
      } else {
        assert rest[a - |scored|] in rest && rest[b - |scored|] in rest;
        UnscoredAbove(hits, n, keys, best, order[a], order[b]);
      }
    }
    forall x ensures x in order <==> 0 <= x < n {
      assert x in order <==> x in scored || x in rest;
    }
    OrderIsPermutation(order, n);
  }

  predicate InPool(order: seq<int>, candidates: seq<Candidate>) {
    forall a :: 0 <= a < |order| ==> 0 <= order[a] < |candidates|
  }

  function Chunks(candidates: seq<Candidate>, order: seq<int>): seq<RankedChunk>
    requires InPool(order, candidates)
  {
    seq(|order|, a requires 0 <= a < |order| => ToRanked(candidates[order[a]]))
  }

  lemma PermutationInRange(order: seq<int>, n: nat)
    requires multiset(order) == multiset(Indices(n))
    ensures |order| == n && (forall a :: 0 <= a < n ==> 0 <= order[a] < n) && NoDuplicates(order)
    ensures forall i :: 0 <= i < n ==> i in order
  {
    assert |multiset(order)| == n;
    forall a | 0 <= a < |order| ensures 0 <= order[a] < n {
      assert order[a] in multiset(Indices(n));
    }
    forall i | 0 <= i < n ensures i in order {
      assert Indices(n)[i] == i;
      assert i in multiset(order);
    }
    PermutationKeepsDistinct(Indices(n), order);
  }

  method RerankOrder(candidates: seq<Candidate>, hits: seq<ScoreHit>)
    returns (ranked: seq<RankedChunk>, order: seq<int>)
    ensures IsRerank(hits, |candidates|, order)
    ensures |ranked| == |order| == |candidates|
    ensures forall a :: 0 <= a < |order| ==> 0 <= order[a] < |candidates| && ranked[a] == ToRanked(candidates[order[a]])
  {
    var n := |candidates|;
    var keys: seq<int>, best: map<int, real> := [], map[];
    for k := 0 to |hits|
      invariant FirstScores(hits[..k], n, keys, best)
    {
      var h := hits[k];
      assert hits[..k + 1] == hits[..k] + [h];
      OneMoreHit(hits[..k], h, n, keys, best);
      if !Usable(h, n) {
        continue;
      }
      var i := h.index.r.Floor;
      if i !in best {
        keys, best := keys + [i], best[i := h.score.r];
      }
    }
    assert hits[..|hits|] == hits;
    var scored, rest := Sort(keys, ByScore(best)), Unscored(best, n);
    RerankOrdered(hits, n, keys, best, scored, rest);
    order := scored + rest;
    PermutationInRange(order, n);
    ranked := Chunks(candidates, order);
  }

  /** Two orders that the same hits induce are one order: ties leave nothing open. */
  lemma RerankDetermined(hits: seq<ScoreHit>, n: nat, a: seq<int>, b: seq<int>)
    requires IsRerank(hits, n, a) && IsRerank(hits, n, b)
    ensures a == b
  {
    StrictOrderUnique(a, b, (i: int, j: int) => Above(hits, n, i, j));
  }

  lemma {:induction false} StrictOrderUnique(a: seq<int>, b: seq<int>, above: (int, int) -> bool)
    requires multiset(a) == multiset(b)
    requires forall i, j :: !(above(i, j) && above(j, i))
    requires forall i, j :: 0 <= i < j < |a| ==> above(a[i], a[j])
    requires forall i, j :: 0 <= i < j < |b| ==> above(b[i], b[j])
    ensures a == b
  {
    if a == [] {
      assert |multiset(b)| == 0;
    } else {
      SameHead(a, b, above);
      StrictOrderUnique(a[1..], b[1..], above);
    }
  }

  lemma SameHead(a: seq<int>, b: seq<int>, above: (int, int) -> bool)
    requires multiset(a) == multiset(b) && a != []
    requires forall i, j :: !(above(i, j) && above(j, i))
    requires forall i, j :: 0 <= i < j < |a| ==> above(a[i], a[j])
    requires forall i, j :: 0 <= i < j < |b| ==> above(b[i], b[j])
    ensures b != [] && a[0] == b[0] && multiset(a[1..]) == multiset(b[1..])
  {
    assert a[0] in multiset(b);
    var i :| 0 <= i < |b| && b[i] == a[0];
    assert b[0] in multiset(a);
    var j :| 0 <= j < |a| && a[j] == b[0];
    assert i == 0 || j == 0;
    assert a == [a[0]] + a[1..];
    assert b == [b[0]] + b[1..];
    assert multiset(a[1..]) == multiset(a) - multiset{a[0]};
  }

  // ---- fusion with the dense order ----

  /** `1 / (k + rank + 1)`. */
  function Reciprocal(k: nat, rank: nat): real {
    1.0 / (k + rank + 1) as real
  }

  lemma ReciprocalIs(k: nat, rank: nat)
    ensures Reciprocal(k, rank) * (k + rank + 1) as real == 1.0
  {
  }

  lemma ReciprocalFalls(k: nat, r: nat, s: nat)
    requires r < s
    ensures Reciprocal(k, r) > Reciprocal(k, s) > 0.0
  {
    var x, y := (k + r + 1) as real, (k + s + 1) as real;
    assert 1.0 / x - 1.0 / y == (y - x) / (x * y);
    assert x * y > 0.0;
  }

  /** The last rank at which a chunk id occurs: building a map from pairs keeps the last. */
  function LastRank(ranked: seq<RankedChunk>, id: string): (r: Option<nat>)
    ensures r.Some? ==> r.value < |ranked| && ranked[r.value].chunkId == id
    ensures r.Some? ==> forall i :: r.value < i < |ranked| ==> ranked[i].chunkId != id
    ensures r.None? ==> forall c :: c in ranked ==> c.chunkId != id
  {
    if ranked == [] then None
    else
      var init, last := ranked[..|ranked| - 1], ranked[|ranked| - 1];
      assert ranked == init + [last];
      if last.chunkId == id then Some(|ranked| - 1) else LastRank(init, id)
  }

  function FusedScore(candidates: seq<Candidate>, ranked: seq<RankedChunk>, k: nat, i: int): real {
    if 0 <= i < |candidates| then
      var rank := LastRank(ranked, candidates[i].chunkId);
      Reciprocal(k, i) + Reciprocal(k, if rank.Some? then rank.value else |candidates|)
    else 0.0
  }

  /** Ranks `a` and `b` together score at least as much as ranks `c` and `d`: `1/x + 1/y >= 1/z + 1/w` in whole
      numbers. */
  predicate NoWorse(k: nat, a: nat, b: nat, c: nat, d: nat) {
    var x, y, z, w := k + a + 1, k + b + 1, k + c + 1, k + d + 1;
    (x + y) * (z * w) >= (z + w) * (x * y)
  }

  lemma SumOfReciprocals(x: real, y: real, p: real, q: real)
    requires x > 0.0 && y > 0.0 && p * x == 1.0 && q * y == 1.0
    ensures (p + q) * (x * y) == x + y
  {
    assert (p + q) * (x * y) == (p * x) * y + (q * y) * x;
  }

  lemma CrossMultiply(s: real, t: real, m: real, n: real, u: real, v: real)
    requires m > 0.0 && n > 0.0 && s * m == u && t * n == v
    ensures s >= t <==> u * n >= v * m
  {
    assert u * n - v * m == (s - t) * (m * n);
    assert m * n > 0.0;
  }

  lemma NoWorseIsScore(k: nat, a: nat, b: nat, c: nat, d: nat)
    ensures NoWorse(k, a, b, c, d) <==>
      Reciprocal(k, a) + Reciprocal(k, b) >= Reciprocal(k, c) + Reciprocal(k, d)
  {
    var x, y, z, w := k + a + 1, k + b + 1, k + c + 1, k + d + 1;
    ReciprocalIs(k, a);
    ReciprocalIs(k, b);
    ReciprocalIs(k, c);
    ReciprocalIs(k, d);
    SumOfReciprocals(x as real, y as real, Reciprocal(k, a), Reciprocal(k, b));
    SumOfReciprocals(z as real, w as real, Reciprocal(k, c), Reciprocal(k, d));
    CrossMultiply(Reciprocal(k, a) + Reciprocal(k, b), Reciprocal(k, c) + Reciprocal(k, d),
                  x as real * y as real, z as real * w as real, (x + y) as real, (z + w) as real);
    ProductsAgree(x, y, z, w);
  }

  lemma ProductsAgree(x: nat, y: nat, z: nat, w: nat)
    ensures (x + y) as real * (z as real * w as real) == ((x + y) * (z * w)) as real
    ensures (z + w) as real * (x as real * y as real) == ((z + w) * (x * y)) as real
  {
    assert z as real * w as real == (z * w) as real;
    assert x as real * y as real == (x * y) as real;
  }

  function ByFusedScore(candidates: seq<Candidate>, ranked: seq<RankedChunk>, k: nat): (int, int) -> bool {
    (i: int, j: int) =>
      var a, b := FusedScore(candidates, ranked, k, i), FusedScore(candidates, ranked, k, j);
      a > b || (a == b && i <= j)
  }

  ghost predicate IsLastRank(ranked: seq<RankedChunk>, id: string, p: nat) {
    p < |ranked| && ranked[p].chunkId == id && forall i :: p < i < |ranked| ==> ranked[i].chunkId != id
  }

  /** `fused` lists the pool by its ranks here and in `ranked`, equal ones in pool order. */
  ghost predicate ByBothRanks(candidates: seq<Candidate>, ranked: seq<RankedChunk>, k: nat, fused: seq<int>)
    requires InPool(fused, candidates)
  {
    forall a, b :: 0 <= a < b < |fused| ==> RanksFirst(candidates, ranked, k, fused[a], fused[b])
  }

  ghost predicate RanksFirst(candidates: seq<Candidate>, ranked: seq<RankedChunk>, k: nat, i: nat, j: nat)
    requires i < |candidates| && j < |candidates|
  {
    exists p, q ::
      && IsLastRank(ranked, candidates[i].chunkId, p) && IsLastRank(ranked, candidates[j].chunkId, q)
      && NoWorse(k, i, p, j, q) && (NoWorse(k, j, q, i, p) ==> i < j)
  }

  lemma ScoreRanksFirst(candidates: seq<Candidate>, order: seq<int>, k: nat, i: nat, j: nat)
    requires InPool(order, candidates) && i in order && j in order && i < |candidates| && j < |candidates| && i != j
    requires ByFusedScore(candidates, Chunks(candidates, order), k)(i, j)
    ensures RanksFirst(candidates, Chunks(candidates, order), k, i, j)
  {
    var ranked := Chunks(candidates, order);
    RankKnown(candidates, order, i);
    RankKnown(candidates, order, j);
    var p, q := LastRank(ranked, candidates[i].chunkId).value, LastRank(ranked, candidates[j].chunkId).value;
    NoWorseIsScore(k, i, p, j, q);
    NoWorseIsScore(k, j, q, i, p);
    assert IsLastRank(ranked, candidates[i].chunkId, p) && IsLastRank(ranked, candidates[j].chunkId, q);
  }

  lemma RankKnown(candidates: seq<Candidate>, order: seq<int>, i: nat)
    requires InPool(order, candidates) && i in order && i < |candidates|
    ensures LastRank(Chunks(candidates, order), candidates[i].chunkId).Some?
  {
    var a :| 0 <= a < |order| && order[a] == i;
    assert Chunks(candidates, order)[a] in Chunks(candidates, order);
  }

  ghost predicate DistinctIds(candidates: seq<Candidate>) {
    forall i, j :: 0 <= i < j < |candidates| ==> candidates[i].chunkId != candidates[j].chunkId
  }

  /** Among distinct ids, the rank looked up for a candidate is its own. */
  lemma RankIsOwn(candidates: seq<Candidate>, ranked: seq<RankedChunk>, order: seq<int>, a: nat)
    requires DistinctIds(candidates) && NoDuplicates(order) && |ranked| == |order| && a < |order|
    requires forall b :: 0 <= b < |order| ==>
      0 <= order[b] < |candidates| && ranked[b] == ToRanked(candidates[order[b]])
    ensures LastRank(ranked, candidates[order[a]].chunkId) == Some(a)
  {
    var id := candidates[order[a]].chunkId;
    assert ranked[a] in ranked && ranked[a].chunkId == id;
    var b := LastRank(ranked, id).value;
    assert candidates[order[b]].chunkId == id;
    assert order[b] == order[a];
  }

  /** Better in both orders is better in the fusion. */
  lemma FusionIsPareto(candidates: seq<Candidate>, ranked: seq<RankedChunk>, order: seq<int>, k: nat, fused: seq<int>,
                       i: int, j: int)
    requires DistinctIds(candidates) && |ranked| == |order| == |candidates|
    requires multiset(order) == multiset(Indices(|candidates|))
    requires forall b :: 0 <= b < |order| ==>
      0 <= order[b] < |candidates| && ranked[b] == ToRanked(candidates[order[b]])
    requires fused == Sort(Indices(|candidates|), ByFusedScore(candidates, ranked, k))
    requires 0 <= i < j < |candidates| && Precedes(order, i, j)
    ensures Precedes(fused, i, j)
  {
    var n := |candidates|;
    var a, b :| 0 <= a < b < |order| && order[a] == i && order[b] == j;
    PermutationInRange(order, n);
    RankIsOwn(candidates, ranked, order, a);
    RankIsOwn(candidates, ranked, order, b);
    ReciprocalFalls(k, i, j);
    ReciprocalFalls(k, a, b);
    SortSorts(Indices(n), ByFusedScore(candidates, ranked, k));
    assert Indices(n)[i] == i && Indices(n)[j] == j;
    SortMembers(Indices(n), ByFusedScore(candidates, ranked, k), i);
    SortMembers(Indices(n), ByFusedScore(candidates, ranked, k), j);
    StrictlyFirst(fused, ByFusedScore(candidates, ranked, k), i, j);
  }

  /** The fusion is an order of the whole pool, whatever the hits are; with distinct chunk ids, what is
      before something else both in the pool and in the rerank order `order` is before it here too. */
  method RrfFuseOrder(candidates: seq<Candidate>, hits: seq<ScoreHit>, k: nat)
    returns (ranked: seq<RankedChunk>, fused: seq<int>, order: seq<int>)
    ensures IsRerank(hits, |candidates|, order) && InPool(order, candidates)
    ensures multiset(fused) == multiset(Indices(|candidates|)) && |ranked| == |fused| == |candidates|
    ensures forall a :: 0 <= a < |fused| ==> 0 <= fused[a] < |candidates| && ranked[a] == ToRanked(candidates[fused[a]])
    ensures ByBothRanks(candidates, Chunks(candidates, order), k, fused)
    ensures DistinctIds(candidates) ==>
      forall i, j :: 0 <= i < j < |candidates| && Precedes(order, i, j) ==> Precedes(fused, i, j)
  {
    var n := |candidates|;
    var rr;
    rr, order := RerankOrder(candidates, hits);
    fused := Sort(Indices(n), ByFusedScore(candidates, rr, k));
    SortPermutes(Indices(n), ByFusedScore(candidates, rr, k));
    SortSorts(Indices(n), ByFusedScore(candidates, rr, k));
    assert rr == Chunks(candidates, order);
    PermutationInRange(fused, n);
    ranked := Chunks(candidates, fused);
    PermutationInRange(order, n);
    forall a, b | 0 <= a < b < |fused| ensures RanksFirst(candidates, rr, k, fused[a], fused[b]) {
      assert ByFusedScore(candidates, rr, k)(fused[a], fused[b]);
      ScoreRanksFirst(candidates, order, k, fused[a], fused[b]);
    }
    if DistinctIds(candidates) {
      forall i, j | 0 <= i < j < n && Precedes(order, i, j) ensures Precedes(fused, i, j) {
        FusionIsPareto(candidates, rr, order, k, fused, i, j);
      }
    }
  }

  // ---- fusion of whole result lists ----

  /** `1 / (10 + rank)`. */
  function MergeWeight(rank: nat): real { Reciprocal(9, rank) }

  /** What a list that holds an id once adds to its total: the reciprocal of ten plus its rank there. */
  lemma ListAddsReciprocal(list: seq<RankedChunk>, r: nat)
    requires DuplicateFree(list) && r < |list|
    ensures Total(Ranked(list, |list|), list[r].chunkId) * (10 + r) as real == 1.0
  {
    TotalOfList(list, |list|, r, list[r].chunkId);
    ReciprocalIs(9, r);
  }

  /** A chunk together with its rank in the list it comes from. */
  datatype Entry = Entry(chunk: RankedChunk, rank: nat)

  function Ranked(list: seq<RankedChunk>, n: nat): (es: seq<Entry>)
    requires n <= |list|
    ensures |es| == n && forall i :: 0 <= i < n ==> es[i] == Entry(list[i], i)
  {
    seq(n, i requires 0 <= i < n => Entry(list[i], i))
  }

  /** All entries of all lists, in the order in which they are read. */
  function Entries(lists: seq<seq<RankedChunk>>): seq<Entry> {
    if lists == [] then []
    else
      var last := lists[|lists| - 1];
      Entries(lists[..|lists| - 1]) + Ranked(last, |last|)
  }

  function Total(es: seq<Entry>, id: string): (t: real)
    ensures t >= 0.0
  {
    if es == [] then 0.0
    else
      var last := es[|es| - 1];
      Total(es[..|es| - 1], id) + (if last.chunk.chunkId == id then MergeWeight(last.rank) else 0.0)
  }

  function Ids(es: seq<Entry>): set<string> {
    if es == [] then {} else Ids(es[..|es| - 1]) + {es[|es| - 1].chunk.chunkId}
  }

  /** The first chunk of each id, in order of first appearance. */
  function FirstOfEach(es: seq<Entry>): seq<RankedChunk> {
    if es == [] then []
    else
      var init, last := es[..|es| - 1], es[|es| - 1].chunk;
      FirstOfEach(init) + (if last.chunkId in Ids(init) then [] else [last])
  }

  ghost predicate DuplicateFree(list: seq<RankedChunk>) {
    forall i, j :: 0 <= i < j < |list| ==> list[i].chunkId != list[j].chunkId
  }

  lemma {:induction false} FirstOfEachId(es: seq<Entry>)
    ensures DuplicateFree(FirstOfEach(es))
    ensures forall c :: c in FirstOfEach(es) ==> c.chunkId in Ids(es)
    ensures forall id :: id in Ids(es) ==> exists c :: c in FirstOfEach(es) && c.chunkId == id
  {
    if es != [] {
      var init, last := es[..|es| - 1], es[|es| - 1].chunk;
      FirstOfEachId(init);
      var firsts := FirstOfEach(init);
      forall i | 0 <= i < |firsts| && last.chunkId !in Ids(init) ensures firsts[i].chunkId != last.chunkId {
        assert firsts[i] in firsts;
      }
      forall id | id in Ids(es) ensures exists c :: c in FirstOfEach(es) && c.chunkId == id {
        if id in Ids(init) {
          var c :| c in firsts && c.chunkId == id;
          assert c in FirstOfEach(es);
        } else {
          assert last in FirstOfEach(es);
        }
      }
    }
  }

  /** The score map after reading `es`. */
  ghost predicate Tallied(es: seq<Entry>, firsts: seq<RankedChunk>, score: map<string, real>) {
    && firsts == FirstOfEach(es)
    && score.Keys == Ids(es)
    && forall id :: id in score ==> score[id] == Total(es, id)
  }

  function ScoreOf(score: map<string, real>, id: string): real {
    if id in score then score[id] else 0.0
  }

  lemma {:induction false} AbsentTotal(es: seq<Entry>, id: string)
    requires id !in Ids(es)
    ensures Total(es, id) == 0.0
  {
    if es != [] {
      AbsentTotal(es[..|es| - 1], id);
    }
  }

  lemma TallyOne(es: seq<Entry>, firsts: seq<RankedChunk>, score: map<string, real>, e: Entry)
    requires Tallied(es, firsts, score)
    ensures var id := e.chunk.chunkId;
      var firsts' := if id in score then firsts else firsts + [e.chunk];
      Tallied(es + [e], firsts', score[id := ScoreOf(score, id) + MergeWeight(e.rank)])
  {
    assert (es + [e])[..|es|] == es;
    if e.chunk.chunkId !in score {
      AbsentTotal(es, e.chunk.chunkId);
    }
  }

  function ByTotal(es: seq<Entry>): (RankedChunk, RankedChunk) -> bool {
    (c: RankedChunk, d: RankedChunk) => Total(es, c.chunkId) >= Total(es, d.chunkId)
  }

  function ByTally(score: map<string, real>): (RankedChunk, RankedChunk) -> bool {
    (c: RankedChunk, d: RankedChunk) => ScoreOf(score, c.chunkId) >= ScoreOf(score, d.chunkId)
  }

  /** Every id once, as its first chunk, by descending total, equal totals in order of first appearance. */
  ghost predicate IsMerge(es: seq<Entry>, merged: seq<RankedChunk>) {
    && multiset(merged) == multiset(FirstOfEach(es))
    && Sorted(merged, ByTotal(es))
    && StableFor(merged, ByTotal(es), (c: RankedChunk, d: RankedChunk) => Precedes(FirstOfEach(es), c, d))
  }

  lemma TallyAgrees(es: seq<Entry>, firsts: seq<RankedChunk>, score: map<string, real>, c: RankedChunk, d: RankedChunk)
    requires Tallied(es, firsts, score)
    ensures ByTally(score)(c, d) <==> ByTotal(es)(c, d)
  {
    if c.chunkId !in score {
      AbsentTotal(es, c.chunkId);
    }
    if d.chunkId !in score {
      AbsentTotal(es, d.chunkId);
    }
  }

  lemma SortedTallyIsMerge(es: seq<Entry>, firsts: seq<RankedChunk>, score: map<string, real>)
    requires Tallied(es, firsts, score)
    ensures IsMerge(es, Sort(firsts, ByTally(score)))
  {
    var merged := Sort(firsts, ByTally(score));
    var before := (c: RankedChunk, d: RankedChunk) => Precedes(FirstOfEach(es), c, d);
    SortPermutes(firsts, ByTally(score));
    SortSorts(firsts, ByTally(score));
    SortStable(firsts, ByTally(score), before);
    forall i, j | 0 <= i < j < |merged| ensures ByTotal(es)(merged[i], merged[j]) {
      TallyAgrees(es, firsts, score, merged[i], merged[j]);
    }
    forall i, j | 0 <= i < j < |merged| && ByTotal(es)(merged[j], merged[i]) ensures before(merged[i], merged[j]) {
      TallyAgrees(es, firsts, score, merged[j], merged[i]);
    }
  }

  function Cut(merged: seq<RankedChunk>, topK: nat): (top: seq<RankedChunk>)
    ensures top <= merged && |top| <= topK && (|top| < topK ==> top == merged)
  {
    if topK < |merged| then merged[..topK] else merged
  }

  lemma ReadOne(es: seq<Entry>, list: seq<RankedChunk>, rank: nat)
    requires rank < |list|
    ensures es + Ranked(list, rank + 1) == es + Ranked(list, rank) + [Entry(list[rank], rank)]
  {
  }

  method AddItem(item: RankedChunk, rank: nat, firsts: seq<RankedChunk>, score: map<string, real>, ghost es: seq<Entry>)
    returns (firsts': seq<RankedChunk>, score': map<string, real>)
    requires Tallied(es, firsts, score)
    ensures Tallied(es + [Entry(item, rank)], firsts', score')
  {
    TallyOne(es, firsts, score, Entry(item, rank));
    var s := ScoreOf(score, item.chunkId) + MergeWeight(rank);
    firsts' := if item.chunkId in score then firsts else firsts + [item];
    score' := score[item.chunkId := s];
  }

  method AddList(list: seq<RankedChunk>, firsts: seq<RankedChunk>, score: map<string, real>, ghost es: seq<Entry>)
    returns (firsts': seq<RankedChunk>, score': map<string, real>)
    requires Tallied(es, firsts, score)
    ensures Tallied(es + Ranked(list, |list|), firsts', score')
  {
    firsts', score' := firsts, score;
    ghost var read := es;
    for rank := 0 to |list|
      invariant read == es + Ranked(list, rank)
      invariant Tallied(read, firsts', score')
    {
      firsts', score' := AddItem(list[rank], rank, firsts', score', read);
      ReadOne(es, list, rank);
      read := read + [Entry(list[rank], rank)];
    }
  }

  method RrfMergeLists(lists: seq<seq<RankedChunk>>, topK: nat)
    returns (top: seq<RankedChunk>, merged: seq<RankedChunk>)
    ensures IsMerge(Entries(lists), merged)
    ensures top == Cut(merged, topK)
  {
    var firsts: seq<RankedChunk>, score: map<string, real> := [], map[];
    for m := 0 to |lists|
      invariant Tallied(Entries(lists[..m]), firsts, score)
    {
      firsts, score := AddList(lists[m], firsts, score, Entries(lists[..m]));
      assert lists[..m + 1][..m] == lists[..m];
    }
    assert lists[..|lists|] == lists;
    SortedTallyIsMerge(Entries(lists), firsts, score);
    merged := Sort(firsts, ByTally(score));
    top := Cut(merged, topK);
  }

  // ---- better in every list is better in the merge ----

  /** Wherever the list holds `b`, it holds `a` before it. */
  ghost predicate Favours(list: seq<RankedChunk>, a: string, b: string) {
    forall j :: 0 <= j < |list| && list[j].chunkId == b ==> HoldsBefore(list, a, j)
  }

  ghost predicate HoldsBefore(list: seq<RankedChunk>, a: string, j: nat) {
    exists i :: 0 <= i < j && i < |list| && list[i].chunkId == a
  }

  ghost predicate Holds(list: seq<RankedChunk>, id: string) {
    exists j :: 0 <= j < |list| && list[j].chunkId == id
  }

  lemma {:induction false} TotalConcat(es: seq<Entry>, fs: seq<Entry>, id: string)
    ensures Total(es + fs, id) == Total(es, id) + Total(fs, id)
  {
    if fs == [] {
      assert es + fs == es;
    } else {
      TotalConcat(es, fs[..|fs| - 1], id);
      assert (es + fs)[..|es + fs| - 1] == es + fs[..|fs| - 1];
    }
  }

  lemma {:induction false} TotalOfList(list: seq<RankedChunk>, n: nat, r: nat, id: string)
    requires DuplicateFree(list) && n <= |list| && r < |list| && list[r].chunkId == id
    ensures Total(Ranked(list, n), id) == if r < n then MergeWeight(r) else 0.0
  {
    if n > 0 {
      TotalOfList(list, n - 1, r, id);
      assert Ranked(list, n)[..n - 1] == Ranked(list, n - 1);
    }
  }

  lemma {:induction false} TotalAbsent(list: seq<RankedChunk>, n: nat, id: string)
    requires n <= |list| && !Holds(list, id)
    ensures Total(Ranked(list, n), id) == 0.0
  {
    if n > 0 {
      TotalAbsent(list, n - 1, id);
      assert Ranked(list, n)[..n - 1] == Ranked(list, n - 1);
    }
  }

  lemma OneListFavours(list: seq<RankedChunk>, a: string, b: string)
    requires DuplicateFree(list) && Favours(list, a, b)
    ensures Total(Ranked(list, |list|), a) >= Total(Ranked(list, |list|), b)
    ensures Holds(list, b) ==> Total(Ranked(list, |list|), a) > Total(Ranked(list, |list|), b)
  {
    if Holds(list, b) {
      var j :| 0 <= j < |list| && list[j].chunkId == b;
      assert HoldsBefore(list, a, j);
      var i :| 0 <= i < j && i < |list| && list[i].chunkId == a;
      TotalOfList(list, |list|, i, a);
      TotalOfList(list, |list|, j, b);
      ReciprocalFalls(9, i, j);
    } else {
      TotalAbsent(list, |list|, b);
    }
  }

  lemma TotalOfLists(lists: seq<seq<RankedChunk>>, id: string)
    requires lists != []
    ensures var last := lists[|lists| - 1];
      Total(Entries(lists), id) == Total(Entries(lists[..|lists| - 1]), id) + Total(Ranked(last, |last|), id)
  {
    var last := lists[|lists| - 1];
    TotalConcat(Entries(lists[..|lists| - 1]), Ranked(last, |last|), id);
  }

  ghost predicate AllFavour(lists: seq<seq<RankedChunk>>, a: string, b: string) {
    forall m :: 0 <= m < |lists| ==> DuplicateFree(lists[m]) && Favours(lists[m], a, b)
  }

  lemma {:induction false} AllListsFavour(lists: seq<seq<RankedChunk>>, a: string, b: string)
    requires AllFavour(lists, a, b)
    ensures Total(Entries(lists), a) >= Total(Entries(lists), b)
  {
    if lists != [] {
      AllListsFavour(lists[..|lists| - 1], a, b);
      OneListFavours(lists[|lists| - 1], a, b);
      TotalOfLists(lists, a);
      TotalOfLists(lists, b);
    }
  }

  lemma {:induction false} SomeListDecides(lists: seq<seq<RankedChunk>>, a: string, b: string, m: nat)
    requires AllFavour(lists, a, b) && m < |lists| && Holds(lists[m], b)
    ensures Total(Entries(lists), a) > Total(Entries(lists), b)
  {
    var init := lists[..|lists| - 1];
    if m < |init| {
      SomeListDecides(init, a, b, m);
    } else {
      AllListsFavour(init, a, b);
    }
    OneListFavours(lists[|lists| - 1], a, b);
    TotalOfLists(lists, a);
    TotalOfLists(lists, b);
  }

  lemma {:induction false} HeldSomewhere(lists: seq<seq<RankedChunk>>, id: string)
    requires id in Ids(Entries(lists))
    ensures exists m :: 0 <= m < |lists| && Holds(lists[m], id)
  {
    var init, last := lists[..|lists| - 1], lists[|lists| - 1];
    IdsConcat(Entries(init), Ranked(last, |last|), id);
    if id in Ids(Entries(init)) {
      HeldSomewhere(init, id);
      var m :| 0 <= m < |init| && Holds(init[m], id);
      assert Holds(lists[m], id);
    } else {
      IdsOfList(last, |last|, id);
      assert Holds(lists[|lists| - 1], id);
    }
  }

  lemma {:induction false} IdsConcat(es: seq<Entry>, fs: seq<Entry>, id: string)
    ensures id in Ids(es + fs) <==> id in Ids(es) || id in Ids(fs)
  {
    if fs == [] {
      assert es + fs == es;
    } else {
      IdsConcat(es, fs[..|fs| - 1], id);
      assert (es + fs)[..|es + fs| - 1] == es + fs[..|fs| - 1];
    }
  }

  lemma {:induction false} IdsOfList(list: seq<RankedChunk>, n: nat, id: string)
    requires n <= |list| && id in Ids(Ranked(list, n))
    ensures Holds(list, id)
  {
    assert Ranked(list, n)[..n - 1] == Ranked(list, n - 1);
    if list[n - 1].chunkId != id {
      IdsOfList(list, n - 1, id);
    }
  }

  lemma BeatsInMerge(lists: seq<seq<RankedChunk>>, merged: seq<RankedChunk>, a: string, b: RankedChunk)
    returns (c: RankedChunk)
    requires AllFavour(lists, a, b.chunkId)
    requires IsMerge(Entries(lists), merged) && b in merged
    ensures c.chunkId == a && Precedes(merged, c, b)
  {
    var es := Entries(lists);
    FirstOfEachId(es);
    assert b in multiset(merged);
    assert b in FirstOfEach(es);
    HeldSomewhere(lists, b.chunkId);
    var m :| 0 <= m < |lists| && Holds(lists[m], b.chunkId);
    SomeListDecides(lists, a, b.chunkId, m);
    if a !in Ids(es) {
      AbsentTotal(es, a);
    }
    c :| c in FirstOfEach(es) && c.chunkId == a;
    assert c in multiset(merged);
    assert !ByTotal(es)(b, c);
    StrictlyFirst(merged, ByTotal(es), c, b);
  }

  lemma MergeDistinct(es: seq<Entry>, merged: seq<RankedChunk>)
    requires IsMerge(es, merged)
    ensures NoDuplicates(merged)
  {
    FirstOfEachId(es);
    PermutationKeepsDistinct(FirstOfEach(es), merged);
  }

  lemma CutKeepsPrecedence(merged: seq<RankedChunk>, topK: nat, c: RankedChunk, b: RankedChunk)
    requires NoDuplicates(merged) && Precedes(merged, c, b) && b in Cut(merged, topK)
    ensures Precedes(Cut(merged, topK), c, b)
  {
    var cut := Cut(merged, topK);
    var i, j :| 0 <= i < j < |merged| && merged[i] == c && merged[j] == b;
    var k :| 0 <= k < |cut| && cut[k] == b;
    assert merged[k] == merged[j];
    assert cut[i] == c;
  }

  /** In lists without duplicates: if every list that holds `b` holds `a` before it, then `a` comes before
      `b` in the merge, and so in every cut that still has `b`. */
  lemma MergeIsPareto(lists: seq<seq<RankedChunk>>, merged: seq<RankedChunk>, topK: nat, a: string, b: RankedChunk)
    requires AllFavour(lists, a, b.chunkId)
    requires IsMerge(Entries(lists), merged) && b in Cut(merged, topK)
    ensures exists c: RankedChunk :: c.chunkId == a && Precedes(Cut(merged, topK), c, b)
  {
    var c := BeatsInMerge(lists, merged, a, b);
    MergeDistinct(Entries(lists), merged);
    CutKeepsPrecedence(merged, topK, c, b);
  }
}
