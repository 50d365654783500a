/** The retrieval metrics of one golden query, over exact reals. `disc(i)` stands for the position
    discount `1 / log2(i + 2)`: all that matters is that it is positive and strictly decreasing. */
module Metrics {
  import opened Basics

  datatype GoldenQuery = GoldenQuery(seedPaths: seq<string>, targetPaths: seq<string>, bridgePaths: seq<string>)

  type Discount = nat -> real

  ghost predicate IsDiscount(disc: Discount) {
    (forall i: nat :: disc(i) > 0.0) && forall i: nat, j: nat :: i < j ==> disc(i) > disc(j)
  }

  // ---- paths ----

  lemma NormalizeTwice(p: string)
    ensures NormalizeSeparators(NormalizeSeparators(p)) == NormalizeSeparators(p)
  {
  }

  function NormHits(hits: seq<RankedChunk>): (hs: seq<RankedChunk>)
    ensures |hs| == |hits|
    ensures forall i :: 0 <= i < |hits| ==> hs[i] == RankedChunk(hits[i].chunkId, NormalizeSeparators(hits[i].path))
  {
    seq(|hits|, i requires 0 <= i < |hits| => RankedChunk(hits[i].chunkId, NormalizeSeparators(hits[i].path)))
  }

  function Elements(ps: seq<string>): (s: set<string>)
    ensures forall p :: p in s <==> p in ps
  {
    set p | p in ps
  }

  function Paths(hits: seq<RankedChunk>): (ps: seq<string>)
    ensures |ps| == |hits| && forall i :: 0 <= i < |hits| ==> ps[i] == hits[i].path
  {
    seq(|hits|, i requires 0 <= i < |hits| => hits[i].path)
  }

  /** The hits whose path no earlier hit has. */
  function Firsts(hits: seq<RankedChunk>): (hs: seq<RankedChunk>)
    ensures |hs| <= |hits|
  {
    if hits == [] then []
    else
      var init, last := hits[..|hits| - 1], hits[|hits| - 1];
      Firsts(init) + (if last.path in Paths(init) then [] else [last])
  }

  /** What `uniquePathsInOrder` promises: each path once, in the order of first appearance. */
  function UniquePaths(hits: seq<RankedChunk>): seq<string> {
    Paths(Firsts(hits))
  }

  lemma ElementsGrow(ps: seq<string>, p: string)
    ensures Elements(ps + [p]) == Elements(ps) + {p}
  {
  }

  lemma FirstsGrow(hits: seq<RankedChunk>, h: RankedChunk)
    ensures Firsts(hits + [h]) == Firsts(hits) + (if h.path in Paths(hits) then [] else [h])
    ensures Elements(Paths(hits + [h])) == Elements(Paths(hits)) + {h.path}
  {
    assert (hits + [h])[..|hits|] == hits;
    assert Paths(hits + [h]) == Paths(hits) + [h.path];
    ElementsGrow(Paths(hits), h.path);
  }

  /** Each path that occurs is kept, and kept once. */
  lemma {:induction false} UniquePathsAreUnique(hits: seq<RankedChunk>)
    ensures NoDuplicates(UniquePaths(hits)) && Elements(UniquePaths(hits)) == Elements(Paths(hits))
  {
    if hits != [] {
      var init, last := hits[..|hits| - 1], hits[|hits| - 1];
      UniquePathsAreUnique(init);
      FirstsGrow(init, last);
      assert init + [last] == hits;
      if last.path !in Paths(init) {
        assert UniquePaths(hits) == UniquePaths(init) + [last.path];
        ElementsGrow(UniquePaths(init), last.path);
        assert last.path !in Elements(UniquePaths(init));
      } else {
        assert Firsts(hits) == Firsts(init);
      }
    }
  }

  /** After the first `i` hits: the paths seen and the hits kept. */
  ghost predicate Scanned(hits: seq<RankedChunk>, i: nat, seen: set<string>, kept: seq<RankedChunk>) {
    i <= |hits| && seen == Elements(Paths(hits[..i])) && kept == Firsts(hits[..i])
  }

  lemma ScanOne(hits: seq<RankedChunk>, i: nat, seen: set<string>, kept: seq<RankedChunk>)
    requires i < |hits| && Scanned(hits, i, seen, kept)
    ensures hits[i].path in seen ==> Scanned(hits, i + 1, seen, kept)
    ensures hits[i].path !in seen ==> Scanned(hits, i + 1, seen + {hits[i].path}, kept + [hits[i]])
  {
    assert hits[..i + 1] == hits[..i] + [hits[i]];
    FirstsGrow(hits[..i], hits[i]);
    if hits[i].path in seen {
      assert seen + {hits[i].path} == seen;
    }
  }

  method UniquePathsInOrder(chunks: seq<RankedChunk>) returns (ordered: seq<string>)
    ensures ordered == UniquePaths(chunks)
  {
    var seen: set<string> := {};
    ghost var kept: seq<RankedChunk> := [];
    ordered := [];
    for i := 0 to |chunks|
      invariant Scanned(chunks, i, seen, kept) && ordered == Paths(kept)
    {
      ScanOne(chunks, i, seen, kept);
      if chunks[i].path !in seen {
        seen := seen + {chunks[i].path};
        ordered := ordered + [chunks[i].path];
        kept := kept + [chunks[i]];
      }
    }
    assert chunks[..|chunks|] == chunks;
  }

  /** At most `k` of `s`; a length of 0 is never reached by the loop, so it is no limit at all. */
  function Limit<T>(s: seq<T>, k: int): seq<T> {
    if 0 < k < |s| then s[..k] else s
  }

  lemma {:induction false} FirstsOfPrefix(hits: seq<RankedChunk>, i: nat)
    requires i <= |hits|
    ensures Firsts(hits[..i]) <= Firsts(hits)
  {
    if i < |hits| {
      FirstsOfPrefix(hits[..|hits| - 1], i);
      assert hits[..|hits| - 1][..i] == hits[..i];
    } else {
      assert hits[..i] == hits;
    }
  }

  method DedupeByPath(hits: seq<RankedChunk>, k: int) returns (out: seq<RankedChunk>)
    ensures out == Limit(Firsts(hits), k)
  {
    var seen: set<string> := {};
    out := [];
    for i := 0 to |hits|
      invariant Scanned(hits, i, seen, out) && (0 < k ==> |out| < k)
    {
      ScanOne(hits, i, seen, out);
      if hits[i].path in seen {
        continue;
      }
      seen := seen + {hits[i].path};
      out := out + [hits[i]];
      if |out| == k {
        FirstsOfPrefix(hits, i + 1);
        return;
      }
    }
    assert hits[..|hits|] == hits;
  }

  lemma {:induction false} FirstsTwice(hits: seq<RankedChunk>)
    requires NoDuplicates(Paths(hits))
    ensures Firsts(hits) == hits
  {
    if hits != [] {
      var init, last := hits[..|hits| - 1], hits[|hits| - 1];
      assert Paths(init) == Paths(hits)[..|init|];
      FirstsTwice(init);
      assert forall i :: 0 <= i < |init| ==> Paths(hits)[i] != Paths(hits)[|init|];
    }
  }

  /** Collapsing to one hit per path cuts the unique paths to the first `k` and changes nothing else. */
  lemma DedupeCutsUniquePaths(hits: seq<RankedChunk>, k: int)
    ensures UniquePaths(Limit(Firsts(hits), k)) == Limit(UniquePaths(hits), k)
  {
    UniquePathsAreUnique(hits);
    var out := Limit(Firsts(hits), k);
    assert Paths(out) == Limit(UniquePaths(hits), k);
    FirstsTwice(out);
  }

  // ---- scores of a result list ----

  /** How many of the first `n` paths of `top` are relevant. */
  function Relevant(top: seq<string>, rel: set<string>, n: nat): (c: nat)
    requires n <= |top|
    ensures c <= n
  {
    if n == 0 then 0 else Relevant(top, rel, n - 1) + (if top[n - 1] in rel then 1 else 0)
  }

  function Dcg(top: seq<string>, rel: set<string>, disc: Discount, n: nat): real
    requires n <= |top|
  {
    if n == 0 then 0.0 else Dcg(top, rel, disc, n - 1) + (if top[n - 1] in rel then disc(n - 1) else 0.0)
  }

  function IdealDcg(disc: Discount, n: nat): real {
    if n == 0 then 0.0 else IdealDcg(disc, n - 1) + disc(n - 1)
  }

  function Min(a: nat, b: nat): (m: nat)
    ensures m <= a && m <= b && (m == a || m == b)
  {
    if a < b then a else b
  }

  function Ndcg(top: seq<string>, rel: set<string>, disc: Discount): real {
    var ideal := IdealDcg(disc, Min(|rel|, 10));
    if ideal > 0.0 then Dcg(top, rel, disc, |top|) / ideal else 0.0
  }

  /** The first `n` paths are there and all relevant. */
  ghost predicate AllRelevant(top: seq<string>, rel: set<string>, n: nat) {
    n <= |top| && forall i :: 0 <= i < n ==> top[i] in rel
  }

  lemma {:induction false} IdealGrows(disc: Discount, m: nat, n: nat)
    requires IsDiscount(disc) && m <= n
    ensures 0.0 <= IdealDcg(disc, m) <= IdealDcg(disc, n)
    ensures m < n ==> IdealDcg(disc, m) < IdealDcg(disc, n)
  {
    if m < n {
      IdealGrows(disc, m, n - 1);
      assert disc(n - 1) > 0.0;
    } else if m > 0 {
      IdealGrows(disc, m - 1, m - 1);
      assert disc(m - 1) > 0.0;
    }
  }

  /** Relevant paths score at most as if they came first, and that much only if they do. */
  lemma {:induction false} DcgAtMostIdeal(top: seq<string>, rel: set<string>, disc: Discount, n: nat)
    requires IsDiscount(disc) && n <= |top|
    ensures 0.0 <= Dcg(top, rel, disc, n) <= IdealDcg(disc, Relevant(top, rel, n))
    ensures Dcg(top, rel, disc, n) == IdealDcg(disc, Relevant(top, rel, n))
      <==> AllRelevant(top, rel, Relevant(top, rel, n))
  {
    if n > 0 {
      DcgAtMostIdeal(top, rel, disc, n - 1);
      var c := Relevant(top, rel, n - 1);
      if top[n - 1] in rel {
        assert disc(n - 1) > 0.0 && disc(c) > 0.0;
        assert c < n - 1 ==> disc(c) > disc(n - 1);
        if c < n - 1 {
          SomeIrrelevant(top, rel, c + 1);
          RelevantGrows(top, rel, c + 1, n - 1);
        }
      }
    }
  }

  lemma {:induction false} RelevantGrows(top: seq<string>, rel: set<string>, m: nat, n: nat)
    requires m <= n <= |top|
    ensures Relevant(top, rel, m) <= Relevant(top, rel, n)
  {
    if m < n {
      RelevantGrows(top, rel, m, n - 1);
    }
  }

  lemma {:induction false} SomeIrrelevant(top: seq<string>, rel: set<string>, n: nat)
    requires n <= |top|
    ensures Relevant(top, rel, n) == n <==> AllRelevant(top, rel, n)
  {
    if n > 0 {
      SomeIrrelevant(top, rel, n - 1);
    }
  }

  /** Among different paths, the relevant ones are counted by the intersection. */
  lemma {:induction false} RelevantIsIntersection(top: seq<string>, rel: set<string>)
    requires NoDuplicates(top)
    ensures Relevant(top, rel, |top|) == |rel * Elements(top)|
  {
    if top == [] {
      assert rel * Elements(top) == {};
    } else {
      var init, last := top[..|top| - 1], top[|top| - 1];
      RelevantIsIntersection(init, rel);
      assert last !in Elements(init);
      OneMoreRelevant(init, last, rel);
      assert top == init + [last];
    }
  }

  lemma OneMoreRelevant(init: seq<string>, last: string, rel: set<string>)
    requires last !in Elements(init) && Relevant(init, rel, |init|) == |rel * Elements(init)|
    ensures Relevant(init + [last], rel, |init| + 1) == |rel * Elements(init + [last])|
  {
    RelevantGrowsByOne(init, last, rel);
    ElementsGrow(init, last);
    IntersectionGrows(rel, Elements(init), last);
  }

  lemma RelevantGrowsByOne(init: seq<string>, last: string, rel: set<string>)
    ensures Relevant(init + [last], rel, |init| + 1) == Relevant(init, rel, |init|) + (if last in rel then 1 else 0)
  {
    RelevantOfPrefix(init + [last], init, rel, |init|);
  }

  lemma IntersectionGrows(rel: set<string>, s: set<string>, p: string)
    requires p !in s
    ensures |rel * (s + {p})| == |rel * s| + (if p in rel then 1 else 0)
  {
    if p in rel {
      assert rel * (s + {p}) == (rel * s) + {p};
    } else {
      assert rel * (s + {p}) == rel * s;
    }
  }

  lemma {:induction false} RelevantOfPrefix(top: seq<string>, init: seq<string>, rel: set<string>, n: nat)
    requires init <= top && n <= |init|
    ensures Relevant(top, rel, n) == Relevant(init, rel, n)
  {
    if n > 0 {
      RelevantOfPrefix(top, init, rel, n - 1);
    }
  }

  lemma IntersectionAtMost(a: set<string>, b: set<string>)
    ensures |a * b| <= |a|
  {
    assert a == (a * b) + (a - b);
    assert (a * b) !! (a - b);
  }

  lemma RelevantAtMost(top: seq<string>, rel: set<string>)
    requires NoDuplicates(top) && |top| <= 10
    ensures Relevant(top, rel, |top|) <= Min(|rel|, 10)
  {
    RelevantIsIntersection(top, rel);
    IntersectionAtMost(rel, Elements(top));
  }

  /** nDCG lies in [0, 1]; it is 1 exactly when something is expected and as many leading paths as could
      be relevant all are. */
  lemma NdcgPerfectExactly(top: seq<string>, rel: set<string>, disc: Discount)
    requires IsDiscount(disc) && NoDuplicates(top) && |top| <= 10
    ensures 0.0 <= Ndcg(top, rel, disc) <= 1.0
    ensures Ndcg(top, rel, disc) == 1.0 <==> rel != {} && AllRelevant(top, rel, Min(|rel|, 10))
  {
    var c, m := Relevant(top, rel, |top|), Min(|rel|, 10);
    DcgAtMostIdeal(top, rel, disc, |top|);
    RelevantAtMost(top, rel);
    IdealGrows(disc, c, m);
    IdealGrows(disc, 0, m);
    if rel != {} {
      assert m > 0;
      RatioInUnit(Dcg(top, rel, disc, |top|), IdealDcg(disc, m));
      if AllRelevant(top, rel, m) {
        SomeIrrelevant(top, rel, m);
        RelevantGrows(top, rel, m, |top|);
      }
    }
  }

  // ---- the metrics ----

  datatype QueryMetrics = QueryMetrics(
    recall: real,
    mrr: real,
    ndcg: real,
    bridgeNdcg: Option<real>,
    expectedFound: nat,
    expectedTotal: nat,
    bridgeSatisfied: bool,
    resultPathsUnique: nat,
    leakedPaths: Option<nat>)

  function Expected(q: GoldenQuery): set<string> {
    Elements(q.seedPaths + q.targetPaths + q.bridgePaths)
  }

  /** The unique result paths, as normalized. */
  function AllPaths(raw: seq<RankedChunk>): seq<string> { UniquePaths(NormHits(raw)) }

  function Top10(raw: seq<RankedChunk>): (top: seq<string>)
    ensures |top| <= 10
  {
    Limit(AllPaths(raw), 10)
  }

  lemma Top10IsUnique(raw: seq<RankedChunk>)
    ensures NoDuplicates(Top10(raw))
  {
    UniquePathsAreUnique(NormHits(raw));
  }

  /** The reciprocal of the first relevant rank, 0 if there is none. */
  ghost predicate IsReciprocalRank(mrr: real, top: seq<string>, rel: set<string>) {
    || (mrr == 0.0 && forall i :: 0 <= i < |top| ==> top[i] !in rel)
    || exists i :: FirstRelevant(top, rel, i) && mrr == 1.0 / (i + 1) as real
  }

  ghost predicate FirstRelevant(top: seq<string>, rel: set<string>, i: nat) {
    i < |top| && top[i] in rel && forall j :: 0 <= j < i ==> top[j] !in rel
  }

  function ReciprocalRank(top: seq<string>, rel: set<string>, i: nat): real
    decreases |top| - i
  {
    if i >= |top| then 0.0 else if top[i] in rel then 1.0 / (i + 1) as real else ReciprocalRank(top, rel, i + 1)
  }

  lemma {:induction false} ReciprocalRankMeans(top: seq<string>, rel: set<string>, i: nat)
    requires i <= |top| && forall j :: 0 <= j < i ==> top[j] !in rel
    ensures IsReciprocalRank(ReciprocalRank(top, rel, i), top, rel)
    decreases |top| - i
  {
    if i < |top| {
      if top[i] in rel {
        assert FirstRelevant(top, rel, i);
      } else {
        ReciprocalRankMeans(top, rel, i + 1);
      }
    }
  }

  predicate Meets(wanted: seq<string>, paths: set<string>) {
    exists p :: p in wanted && p in paths
  }

  function Leaks(paths: seq<string>, readable: string -> bool): (n: nat)
    ensures n <= |paths| && (n == 0 <==> forall p :: p in paths ==> readable(p))
  {
    if paths == [] then 0
    else
      var init, last := paths[..|paths| - 1], paths[|paths| - 1];
      assert paths == init + [last];
      Leaks(init, readable) + (if readable(last) then 0 else 1)
  }

  method FindReciprocalRank(top: seq<string>, rel: set<string>) returns (mrr: real)
    ensures mrr == ReciprocalRank(top, rel, 0)
  {
    mrr := 0.0;
    for i := 0 to |top|
      invariant mrr == 0.0 && ReciprocalRank(top, rel, 0) == ReciprocalRank(top, rel, i)
    {
      if top[i] in rel {
        mrr := 1.0 / (i + 1) as real;
        return;
      }
    }
  }

  method FindNdcg(top: seq<string>, rel: set<string>, disc: Discount) returns (ndcg: real)
    ensures ndcg == Ndcg(top, rel, disc)
  {
    var dcg := 0.0;
    for i := 0 to |top|
      invariant dcg == Dcg(top, rel, disc, i)
    {
      if top[i] in rel {
        dcg := dcg + disc(i);
      }
    }
    var idcg := 0.0;
    for i := 0 to Min(|rel|, 10)
      invariant idcg == IdealDcg(disc, i)
    {
      idcg := idcg + disc(i);
    }
    ndcg := if idcg > 0.0 then dcg / idcg else 0.0;
  }

  /** What is scored, from the ten best unique paths `top` and all of them. */
  function MetricsOf(q: GoldenQuery, top: seq<string>, all: seq<string>, disc: Discount,
                     readable: Option<string -> bool>): QueryMetrics
  {
    var expected := Expected(q);
    var found := |expected * Elements(top)|;
    QueryMetrics(
      if |expected| > 0 then found as real / |expected| as real else 0.0,
      ReciprocalRank(top, expected, 0),
      Ndcg(top, expected, disc),
      if q.bridgePaths == [] then None else Some(Ndcg(top, Elements(q.bridgePaths), disc)),
      found,
      |expected|,
      if q.bridgePaths != [] then Meets(q.bridgePaths, Elements(all))
      else Meets(q.seedPaths, Elements(all)) && Meets(q.targetPaths, Elements(all)),
      |all|,
      if readable.Some? then Some(Leaks(all, readable.value)) else None)
  }

  ghost predicate SharePath(a: seq<string>, b: seq<string>) {
    exists i, j :: 0 <= i < |a| && 0 <= j < |b| && a[i] == b[j]
  }

  /** The paths that a reader may not see. */
  function Hidden(paths: seq<string>, readable: string -> bool): set<string> {
    set p | p in paths && !readable(p)
  }

  /** What recall counts: different expected paths, and those of them among the ten best. */
  ghost predicate RecallCounted(q: GoldenQuery, m: QueryMetrics, top: seq<string>) {
    var expected := Elements(q.seedPaths) + Elements(q.targetPaths) + Elements(q.bridgePaths);
    && m.expectedTotal == |expected| && m.expectedFound == |expected * Elements(top)|
    && IsShare(m.recall, m.expectedFound, m.expectedTotal)
  }

  ghost predicate IsShare(x: real, part: nat, whole: nat) {
    x * whole as real == part as real && (whole == 0 ==> x == 0.0)
  }

  /** What else is reported: whether a bridge (or without bridges a seed and a target) was returned at all, and the
      number of different paths returned that must not be. */
  ghost predicate ReturnsCounted(q: GoldenQuery, m: QueryMetrics, all: seq<string>, readable: Option<string -> bool>) {
    && (m.bridgeSatisfied <==>
      if q.bridgePaths != [] then SharePath(q.bridgePaths, all)
      else SharePath(q.seedPaths, all) && SharePath(q.targetPaths, all))
    && m.leakedPaths == match readable { case None => None case Some(f) => Some(|Hidden(all, f)|) }
  }

  lemma ExpectedInParts(q: GoldenQuery)
    ensures Expected(q) == Elements(q.seedPaths) + Elements(q.targetPaths) + Elements(q.bridgePaths)
  {
  }

  lemma MeetsShares(wanted: seq<string>, all: seq<string>)
    ensures Meets(wanted, Elements(all)) <==> SharePath(wanted, all)
  {
    if Meets(wanted, Elements(all)) {
      var p :| p in wanted && p in Elements(all);
      var i :| 0 <= i < |wanted| && wanted[i] == p;
      var j :| 0 <= j < |all| && all[j] == p;
      assert wanted[i] == all[j];
    }
    if SharePath(wanted, all) {
      var i, j :| 0 <= i < |wanted| && 0 <= j < |all| && wanted[i] == all[j];
      assert wanted[i] in wanted && all[j] in Elements(all);
    }
  }

  lemma OneMoreHidden(init: seq<string>, last: string, readable: string -> bool)
    requires last !in init
    ensures |Hidden(init + [last], readable)| == |Hidden(init, readable)| + (if readable(last) then 0 else 1)
  {
    if readable(last) {
      assert Hidden(init + [last], readable) == Hidden(init, readable);
    } else {
      assert Hidden(init + [last], readable) == Hidden(init, readable) + {last};
    }
  }

  lemma {:induction false} LeaksCountsHidden(paths: seq<string>, readable: string -> bool)
    requires NoDuplicates(paths)
    ensures Leaks(paths, readable) == |Hidden(paths, readable)|
  {
    if paths == [] {
      assert Hidden(paths, readable) == {};
    } else {
      var init, last := paths[..|paths| - 1], paths[|paths| - 1];
      LeaksCountsHidden(init, readable);
      assert paths == init + [last];
      OneMoreHidden(init, last, readable);
    }
  }

  lemma ReturnsAreCounted(q: GoldenQuery, top: seq<string>, all: seq<string>, disc: Discount,
                          readable: Option<string -> bool>)
    requires NoDuplicates(all)
    ensures ReturnsCounted(q, MetricsOf(q, top, all, disc, readable), all, readable)
  {
    MeetsShares(q.seedPaths, all);
    MeetsShares(q.targetPaths, all);
    MeetsShares(q.bridgePaths, all);
    if readable.Some? {
      LeaksCountsHidden(all, readable.value);
    }
  }

  lemma RecallIsCounted(q: GoldenQuery, top: seq<string>, all: seq<string>, disc: Discount,
                        readable: Option<string -> bool>)
    ensures RecallCounted(q, MetricsOf(q, top, all, disc, readable), top)
  {
    ExpectedInParts(q);
    IntersectionAtMost(Expected(q), Elements(top));
    RecallIsShare(|Expected(q) * Elements(top)|, |Expected(q)|);
  }

  lemma RecallIsShare(found: nat, expected: nat)
    requires found <= expected
    ensures IsShare(if expected > 0 then found as real / expected as real else 0.0, found, expected)
  {
    if expected > 0 {
      DivideOut(found as real, expected as real);
    }
  }

  lemma DivideOut(x: real, n: real)
    requires n > 0.0
    ensures x / n * n == x
  {
  }

  method ComputeQueryMetrics(q: GoldenQuery, raw: seq<RankedChunk>, disc: Discount, readable: Option<string -> bool>)
    returns (m: QueryMetrics)
    ensures m == MetricsOf(q, Top10(raw), AllPaths(raw), disc, readable)
    ensures RecallCounted(q, m, Top10(raw)) && ReturnsCounted(q, m, AllPaths(raw), readable)
  {
    var allPaths := UniquePathsInOrder(NormHits(raw));
    var top10 := Limit(allPaths, 10);
    var expected := Expected(q);
    var found := |expected * Elements(top10)|;
    var recall := if |expected| > 0 then found as real / |expected| as real else 0.0;
    var mrr := FindReciprocalRank(top10, expected);
    var ndcg := FindNdcg(top10, expected, disc);
    var bridgeNdcg := None;
    if |q.bridgePaths| > 0 {
      var bridge := FindNdcg(top10, Elements(q.bridgePaths), disc);
      bridgeNdcg := Some(bridge);
    }
    var all := Elements(allPaths);
    var satisfied;
    if |q.bridgePaths| > 0 {
      satisfied := Meets(q.bridgePaths, all);
    } else {
      satisfied := Meets(q.seedPaths, all) && Meets(q.targetPaths, all);
    }
    var leaked := if readable.Some? then Some(Leaks(allPaths, readable.value)) else None;
    m := QueryMetrics(recall, mrr, ndcg, bridgeNdcg, found, |expected|, satisfied, |allPaths|, leaked);
    UniquePathsAreUnique(NormHits(raw));
    RecallIsCounted(q, top10, allPaths, disc, readable);
    ReturnsAreCounted(q, top10, allPaths, disc, readable);
  }

  /** Every score of a query lies in [0, 1]; recall is 1 exactly when everything expected is among the
      ten best paths; and a perfect nDCG puts an expected path first. */
  lemma ScoresInUnit(q: GoldenQuery, raw: seq<RankedChunk>, disc: Discount, readable: Option<string -> bool>)
    requires IsDiscount(disc)
    ensures var m, expected := MetricsOf(q, Top10(raw), AllPaths(raw), disc, readable), Expected(q);
      && 0.0 <= m.recall <= 1.0 && 0.0 <= m.mrr <= 1.0 && 0.0 <= m.ndcg <= 1.0
      && (m.recall == 1.0 <==> expected != {} && expected <= Elements(Top10(raw)))
      && (m.ndcg == 1.0 <==> expected != {} && AllRelevant(Top10(raw), expected, Min(|expected|, 10)))
      && (m.ndcg == 1.0 ==> m.mrr == 1.0)
      && (m.bridgeNdcg.Some? ==> 0.0 <= m.bridgeNdcg.value <= 1.0)
  {
    var top, expected := Top10(raw), Expected(q);
    Top10IsUnique(raw);
    NdcgPerfectExactly(top, expected, disc);
    NdcgPerfectExactly(top, Elements(q.bridgePaths), disc);
    if expected != {} {
      RecallInUnit(expected, Elements(top));
    }
    ReciprocalRankInUnit(top, expected, 0);
  }

  lemma RecallInUnit(expected: set<string>, top: set<string>)
    requires expected != {}
    ensures 0.0 <= |expected * top| as real / |expected| as real <= 1.0
    ensures |expected * top| as real / |expected| as real == 1.0 <==> expected <= top
  {
    IntersectionAtMost(expected, top);
    RatioInUnit(|expected * top| as real, |expected| as real);
    assert expected == (expected * top) + (expected - top);
    assert |expected| == |expected * top| + |expected - top|;
    assert expected <= top <==> expected - top == {};
  }

  lemma {:induction false} ReciprocalRankInUnit(top: seq<string>, rel: set<string>, i: nat)
    ensures 0.0 <= ReciprocalRank(top, rel, i) <= 1.0
    decreases |top| - i
  {
    if i < |top| {
      if top[i] in rel {
        RatioInUnit(1.0, (i + 1) as real);
      } else {
        ReciprocalRankInUnit(top, rel, i + 1);
      }
    }
  }

  // ---- collapsing a result list to one hit per path ----

  lemma FirstsNormalized(hits: seq<RankedChunk>, k: int)
    ensures NormHits(Limit(Firsts(NormHits(hits)), k)) == Limit(Firsts(NormHits(hits)), k)
  {
    var out := Firsts(NormHits(hits));
    FirstsAreHits(NormHits(hits));
    forall i | 0 <= i < |out| ensures NormalizeSeparators(out[i].path) == out[i].path {
      assert out[i] in NormHits(hits);
      var j :| 0 <= j < |hits| && NormHits(hits)[j] == out[i];
      NormalizeTwice(hits[j].path);
    }
  }

  lemma {:induction false} FirstsAreHits(hits: seq<RankedChunk>)
    ensures forall h :: h in Firsts(hits) ==> h in hits
  {
    if hits != [] {
      FirstsAreHits(hits[..|hits| - 1]);
    }
  }

  /** Collapsed to one hit per path, at most `k` of them, normalized hits score as before wherever only the
      ten best paths count, for every `k` of at least 10 (and for those below 1, which cut nothing). The
      number of unique paths becomes at most `k`. */
  lemma DedupeKeepsScores(q: GoldenQuery, hits: seq<RankedChunk>, k: int, disc: Discount,
                          readable: Option<string -> bool>)
    requires k >= 10 || k < 1
    ensures var deduped := Limit(Firsts(NormHits(hits)), k);
      var before := MetricsOf(q, Top10(NormHits(hits)), AllPaths(NormHits(hits)), disc, readable);
      var after := MetricsOf(q, Top10(deduped), AllPaths(deduped), disc, readable);
      && after.recall == before.recall && after.mrr == before.mrr && after.ndcg == before.ndcg
      && after.bridgeNdcg == before.bridgeNdcg && after.expectedFound == before.expectedFound
      && after.resultPathsUnique == if 1 <= k < before.resultPathsUnique then k else before.resultPathsUnique
  {
    var norm := NormHits(hits);
    NormTwice(hits);
    FirstsNormalized(hits, k);
    DedupeCutsUniquePaths(norm, k);
    var deduped := Limit(Firsts(norm), k);
    assert AllPaths(deduped) == Limit(AllPaths(norm), k);
    assert Top10(deduped) == Top10(norm);
  }

  lemma NormTwice(hits: seq<RankedChunk>)
    ensures NormHits(NormHits(hits)) == NormHits(hits)
  {
    forall i | 0 <= i < |hits| ensures NormHits(NormHits(hits))[i] == NormHits(hits)[i] {
      NormalizeTwice(hits[i].path);
    }
  }
}
