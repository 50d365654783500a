/** Length-sorted batches under an attention budget, and the forward passes over them with their
    halving on allocation failures. */
module Batching {
  import opened Basics
  import opened Sorting

  // ---- the plan ----

  function LengthOf(lengths: seq<nat>, i: int): nat {
    if 0 <= i < |lengths| then lengths[i] else 0
  }

  function NoLonger(lengths: seq<nat>): (int, int) -> bool {
    (i: int, j: int) => LengthOf(lengths, i) <= LengthOf(lengths, j)
  }

  /** `sorted(range(len(lengths)), key=lengths.__getitem__)`. */
  function ByLength(lengths: seq<nat>): (order: seq<int>)
    ensures |order| == |lengths|
  {
    Sort(Indices(|lengths|), NoLonger(lengths))
  }

  predicate Before(i: int, j: int) { i < j }

  /** The order has every index once, shortest first, and the lower index first among equals. */
  lemma ByLengthIsStable(lengths: seq<nat>)
    ensures multiset(ByLength(lengths)) == multiset(Indices(|lengths|))
    ensures Sorted(ByLength(lengths), NoLonger(lengths))
    ensures StableFor(ByLength(lengths), NoLonger(lengths), Before)
  {
    SortPermutes(Indices(|lengths|), NoLonger(lengths));
    SortSorts(Indices(|lengths|), NoLonger(lengths));
    SortStable(Indices(|lengths|), NoLonger(lengths), Before);
  }

  function Cost(rows: nat, longest: nat): nat { longest * longest * rows }

  lemma CostMonotone(rows: nat, more: nat, short: nat, long: nat)
    requires rows <= more && short <= long
    ensures Cost(rows, short) <= Cost(more, long)
  {
    TimesMonotone(short, long, short);
    TimesMonotone(short, long, long);
    TimesMonotone(rows, more, short * short);
    TimesMonotone(short * short, long * long, more);
  }

  /** A batch the limits allow: one row, or few enough rows within the budget. */
  ghost predicate Allowed(lengths: seq<nat>, batch: seq<int>, maxBatch: int, budget: int) {
    || |batch| == 1
    || (1 < |batch| <= maxBatch && forall i :: i in batch ==> Cost(|batch|, LengthOf(lengths, i)) <= budget)
  }

  ghost predicate AllAllowed(lengths: seq<nat>, batches: seq<seq<int>>, maxBatch: int, budget: int) {
    forall k :: 0 <= k < |batches| ==> Allowed(lengths, batches[k], maxBatch, budget)
  }

  function Flatten(batches: seq<seq<int>>): seq<int> {
    if batches == [] then [] else Flatten(batches[..|batches| - 1]) + batches[|batches| - 1]
  }

  /** Rows `a` up to `e` of the order make an allowed batch: its last row is its longest. */
  ghost predicate Fits(lengths: seq<nat>, order: seq<int>, a: nat, e: nat, maxBatch: int, budget: int) {
    && a < e <= |order|
    && (e - a == 1 || (e - a <= maxBatch && Cost(e - a, LengthOf(lengths, order[e - 1])) <= budget))
  }

  lemma FitsIsAllowed(lengths: seq<nat>, order: seq<int>, a: nat, e: nat, maxBatch: int, budget: int)
    requires a < e <= |order| && Sorted(order, NoLonger(lengths))
    ensures Fits(lengths, order, a, e, maxBatch, budget) <==> Allowed(lengths, order[a..e], maxBatch, budget)
  {
    var batch := order[a..e];
    assert batch[|batch| - 1] == order[e - 1];
    if Fits(lengths, order, a, e, maxBatch, budget) && e - a > 1 {
      forall i | i in batch ensures Cost(|batch|, LengthOf(lengths, i)) <= budget {
        var k :| a <= k < e && order[k] == i;
        assert k < e - 1 ==> NoLonger(lengths)(order[k], order[e - 1]);
        CostMonotone(|batch|, |batch|, LengthOf(lengths, i), LengthOf(lengths, order[e - 1]));
      }
    }
  }

  /** Starting later, or ending earlier, keeps a batch within the limits. */
  lemma FitsShrinks(lengths: seq<nat>, order: seq<int>, a: nat, e: nat, a': nat, e': nat, maxBatch: int, budget: int)
    requires Sorted(order, NoLonger(lengths)) && Fits(lengths, order, a, e, maxBatch, budget)
    requires a <= a' < e' <= e
    ensures Fits(lengths, order, a', e', maxBatch, budget)
  {
    assert e' < e ==> NoLonger(lengths)(order[e' - 1], order[e - 1]);
    CostMonotone(e' - a', e - a, LengthOf(lengths, order[e' - 1]), LengthOf(lengths, order[e - 1]));
  }

  /** Where batch `k` starts. */
  function Start(batches: seq<seq<int>>, k: nat): (n: nat)
    requires k <= |batches|
  {
    |Flatten(batches[..k])|
  }

  lemma {:induction false} FlattenPrefix(batches: seq<seq<int>>, k: nat)
    requires k <= |batches|
    ensures Flatten(batches[..k]) <= Flatten(batches)
  {
    if k < |batches| {
      var init := batches[..|batches| - 1];
      FlattenPrefix(init, k);
      assert init[..k] == batches[..k];
    } else {
      assert batches[..k] == batches;
    }
  }

  /** Each batch is a stretch of the flattened order. */
  lemma BatchIsSlice(batches: seq<seq<int>>, k: nat)
    requires k < |batches|
    ensures Start(batches, k + 1) == Start(batches, k) + |batches[k]| <= |Flatten(batches)|
    ensures batches[k] == Flatten(batches)[Start(batches, k)..Start(batches, k + 1)]
  {
    var upto := batches[..k + 1];
    assert upto[..|upto| - 1] == batches[..k];
    assert Flatten(upto) == Flatten(batches[..k]) + batches[k];
    FlattenPrefix(batches, k + 1);
  }

  /** A batch is closed only when the next row would not fit in. */
  ghost predicate Greedy(lengths: seq<nat>, order: seq<int>, batches: seq<seq<int>>, maxBatch: int, budget: int) {
    && Flatten(batches) <= order
    && forall k :: 0 <= k < |batches| ==>
        && Fits(lengths, order, Start(batches, k), Start(batches, k + 1), maxBatch, budget)
        && !Fits(lengths, order, Start(batches, k), Start(batches, k + 1) + 1, maxBatch, budget)
  }

  /** No other plan gets further with its first `k` batches. */
  lemma {:induction false} GreedyStaysAhead(lengths: seq<nat>, order: seq<int>, batches: seq<seq<int>>,
                                            other: seq<seq<int>>, k: nat, maxBatch: int, budget: int)
    requires Sorted(order, NoLonger(lengths)) && Greedy(lengths, order, batches, maxBatch, budget)
    requires Flatten(other) == order && AllAllowed(lengths, other, maxBatch, budget)
    requires k <= |batches| && k <= |other|
    ensures Start(other, k) <= Start(batches, k)
  {
    if k > 0 {
      GreedyStaysAhead(lengths, order, batches, other, k - 1, maxBatch, budget);
      BatchIsSlice(other, k - 1);
      var a, a', e, e' := Start(other, k - 1), Start(batches, k - 1), Start(other, k), Start(batches, k);
      assert Allowed(lengths, other[k - 1], maxBatch, budget);
      FitsIsAllowed(lengths, order, a, e, maxBatch, budget);
      assert Fits(lengths, order, a', e', maxBatch, budget);
      if e > e' {
        FitsShrinks(lengths, order, a, e, a', e' + 1, maxBatch, budget);
      }
    }
  }

  /** No split of the order into allowed consecutive batches uses fewer batches. */
  lemma GreedyIsOptimal(lengths: seq<nat>, order: seq<int>, batches: seq<seq<int>>,
                        other: seq<seq<int>>, maxBatch: int, budget: int)
    requires Sorted(order, NoLonger(lengths)) && Greedy(lengths, order, batches, maxBatch, budget)
    requires Flatten(batches) == Flatten(other) == order && AllAllowed(lengths, other, maxBatch, budget)
    ensures |batches| <= |other|
  {
    assert other[..|other|] == other;
    if |batches| > |other| {
      StartsInside(lengths, order, batches, |other|, maxBatch, budget);
      GreedyStaysAhead(lengths, order, batches, other, |other|, maxBatch, budget);
    }
  }

  lemma StartsInside(lengths: seq<nat>, order: seq<int>, batches: seq<seq<int>>, k: nat, maxBatch: int, budget: int)
    requires Greedy(lengths, order, batches, maxBatch, budget) && k < |batches|
    ensures Start(batches, k) < |order|
  {
    assert Fits(lengths, order, Start(batches, k), Start(batches, k + 1), maxBatch, budget);
  }

  /** Closing the batch of rows `pos` up to `e` keeps the plan greedy. */
  lemma CloseBatch(lengths: seq<nat>, order: seq<int>, batches: seq<seq<int>>, pos: nat, e: nat, maxBatch: int,
                   budget: int)
    requires Greedy(lengths, order, batches, maxBatch, budget) && pos <= |order| && Flatten(batches) == order[..pos]
    requires Fits(lengths, order, pos, e, maxBatch, budget) && !Fits(lengths, order, pos, e + 1, maxBatch, budget)
    ensures Greedy(lengths, order, batches + [order[pos..e]], maxBatch, budget)
    ensures Flatten(batches + [order[pos..e]]) == order[..e]
  {
    var more := batches + [order[pos..e]];
    assert more[..|batches|] == batches;
    assert order[..pos] + order[pos..e] == order[..e];
    assert more[..|more|] == more;
    forall k | 0 <= k < |more|
      ensures Fits(lengths, order, Start(more, k), Start(more, k + 1), maxBatch, budget)
      ensures !Fits(lengths, order, Start(more, k), Start(more, k + 1) + 1, maxBatch, budget)
    {
      assert more[..k] == batches[..k];
      if k < |batches| {
        assert more[..k + 1] == batches[..k + 1];
        assert Fits(lengths, order, Start(batches, k), Start(batches, k + 1), maxBatch, budget);
      }
    }
  }

  lemma GreedyIsAllowed(lengths: seq<nat>, order: seq<int>, batches: seq<seq<int>>, maxBatch: int, budget: int)
    requires Sorted(order, NoLonger(lengths)) && Greedy(lengths, order, batches, maxBatch, budget)
    requires Flatten(batches) == order
    ensures AllAllowed(lengths, batches, maxBatch, budget)
  {
    forall k | 0 <= k < |batches| ensures Allowed(lengths, batches[k], maxBatch, budget) {
      BatchIsSlice(batches, k);
      FitsIsAllowed(lengths, order, Start(batches, k), Start(batches, k + 1), maxBatch, budget);
    }
  }

  // ---- any other grouping ----

  function Longest(lengths: seq<nat>, batch: seq<int>): (n: nat)
    ensures forall i :: i in batch ==> LengthOf(lengths, i) <= n
    ensures batch != [] ==> exists i :: i in batch && LengthOf(lengths, i) == n
  {
    if batch == [] then 0
    else
      var rest, last := Longest(lengths, batch[..|batch| - 1]), LengthOf(lengths, batch[|batch| - 1]);
      assert batch == batch[..|batch| - 1] + [batch[|batch| - 1]];
      if rest <= last then last else rest
  }

  function Narrower(lengths: seq<nat>): (seq<int>, seq<int>) -> bool {
    (a: seq<int>, b: seq<int>) => Longest(lengths, a) <= Longest(lengths, b)
  }

  lemma {:induction false} FlattenCons(batch: seq<int>, batches: seq<seq<int>>)
    ensures Flatten([batch] + batches) == batch + Flatten(batches)
  {
    var all := [batch] + batches;
    if batches == [] {
      assert all[..|all| - 1] == [];
    } else {
      FlattenCons(batch, batches[..|batches| - 1]);
      assert all[..|all| - 1] == [batch] + batches[..|batches| - 1];
    }
  }

  lemma {:induction false} FlattenInsert(batch: seq<int>, batches: seq<seq<int>>, le: (seq<int>, seq<int>) -> bool)
    ensures multiset(Flatten(Insert(batch, batches, le))) == multiset(batch) + multiset(Flatten(batches))
  {
    if batches == [] || le(batch, batches[0]) {
      FlattenCons(batch, batches);
    } else {
      FlattenInsert(batch, batches[1..], le);
      FlattenCons(batches[0], Insert(batch, batches[1..], le));
      FlattenCons(batches[0], batches[1..]);
      assert [batches[0]] + batches[1..] == batches;
    }
  }

  /** Reordering the batches regroups nothing. */
  lemma {:induction false} FlattenSort(batches: seq<seq<int>>, le: (seq<int>, seq<int>) -> bool)
    ensures multiset(Flatten(Sort(batches, le))) == multiset(Flatten(batches))
  {
    if batches != [] {
      FlattenSort(batches[1..], le);
      FlattenInsert(batches[0], Sort(batches[1..], le), le);
      FlattenCons(batches[0], batches[1..]);
      assert [batches[0]] + batches[1..] == batches;
    }
  }

  lemma {:induction false} InSomeBatch(batches: seq<seq<int>>, i: int) returns (k: nat)
    requires i in Flatten(batches)
    ensures k < |batches| && i in batches[k]
  {
    var last := |batches| - 1;
    if i in batches[last] {
      k := last;
    } else {
      k := InSomeBatch(batches[..last], i);
    }
  }

  function UpTo(lengths: seq<nat>, longest: nat): int -> bool {
    (i: int) => LengthOf(lengths, i) <= longest
  }

  /** Where at least `e` rows are no longer than `longest`, so is row `e - 1` of the sorted order. */
  lemma RankWithin(lengths: seq<nat>, order: seq<int>, e: nat, longest: nat)
    requires Sorted(order, NoLonger(lengths)) && 0 < e <= |order|
    requires Count(order, UpTo(lengths, longest)) >= e
    ensures LengthOf(lengths, order[e - 1]) <= longest
  {
    var p := UpTo(lengths, longest);
    assert order == order[..e - 1] + order[e - 1..];
    CountConcat(order[..e - 1], order[e - 1..], p);
    if LengthOf(lengths, order[e - 1]) > longest {
      forall i | i in order[e - 1..] ensures !p(i) {
        var k :| e - 1 <= k < |order| && order[k] == i;
        assert e - 1 < k ==> NoLonger(lengths)(order[e - 1], order[k]);
      }
      CountNone(order[e - 1..], p);
    }
  }

  /** The rows of the first batches are at least so many that are no longer than the longest of them. */
  lemma PrefixWithin(lengths: seq<nat>, order: seq<int>, batches: seq<seq<int>>, k: nat)
    requires multiset(order) == multiset(Flatten(batches)) && k < |batches|
    requires Sorted(batches, Narrower(lengths))
    ensures Count(order, UpTo(lengths, Longest(lengths, batches[k]))) >= Start(batches, k + 1)
  {
    var p, upto := UpTo(lengths, Longest(lengths, batches[k])), batches[..k + 1];
    forall i | i in Flatten(upto) ensures p(i) {
      var j := InSomeBatch(upto, i);
      assert j < k ==> Narrower(lengths)(batches[j], batches[k]);
    }
    CountAll(Flatten(upto), p);
    FlattenPrefix(batches, k + 1);
    var rest := Flatten(batches)[|Flatten(upto)|..];
    assert Flatten(batches) == Flatten(upto) + rest;
    CountConcat(Flatten(upto), rest, p);
    CountOfPermutation(order, Flatten(batches), p);
  }

  lemma ShorterFits(lengths: seq<nat>, order: seq<int>, a: nat, e: nat, batch: seq<int>, maxBatch: int, budget: int)
    requires a + 1 < e <= |order| && |batch| == e - a && Allowed(lengths, batch, maxBatch, budget)
    requires LengthOf(lengths, order[e - 1]) <= Longest(lengths, batch)
    ensures Fits(lengths, order, a, e, maxBatch, budget)
  {
    var i :| i in batch && LengthOf(lengths, i) == Longest(lengths, batch);
    CostMonotone(|batch|, |batch|, LengthOf(lengths, order[e - 1]), LengthOf(lengths, i));
  }

  lemma SameLength(a: seq<int>, b: seq<int>)
    requires multiset(a) == multiset(b)
    ensures |a| == |b|
  {
    assert |a| == |multiset(a)| == |b|;
  }

  /** Batches in order of their longest row, cut out of the sorted order at the same places, stay within the limits:
      each gets rows that are no longer. */
  lemma CutFits(lengths: seq<nat>, order: seq<int>, batches: seq<seq<int>>, k: nat, maxBatch: int, budget: int)
    requires multiset(order) == multiset(Flatten(batches)) && k < |batches|
    requires Sorted(order, NoLonger(lengths)) && Sorted(batches, Narrower(lengths))
    requires AllAllowed(lengths, batches, maxBatch, budget)
    ensures Start(batches, k + 1) <= |order|
    ensures Fits(lengths, order, Start(batches, k), Start(batches, k + 1), maxBatch, budget)
  {
    var batch, e := batches[k], Start(batches, k + 1);
    BatchIsSlice(batches, k);
    SameLength(order, Flatten(batches));
    assert Allowed(lengths, batch, maxBatch, budget);
    if |batch| > 1 {
      PrefixWithin(lengths, order, batches, k);
      RankWithin(lengths, order, e, Longest(lengths, batch));
      ShorterFits(lengths, order, Start(batches, k), e, batch, maxBatch, budget);
    }
  }

  /** The sorted order cut into pieces of the same sizes. */
  function Cut(order: seq<int>, batches: seq<seq<int>>): (pieces: seq<seq<int>>)
    requires |Flatten(batches)| <= |order|
    ensures |pieces| == |batches| && Flatten(pieces) == order[..|Flatten(batches)|]
  {
    if batches == [] then []
    else
      var init := batches[..|batches| - 1];
      var piece := order[|Flatten(init)|..|Flatten(batches)|];
      var most := Cut(order, init);
      assert (most + [piece])[..|most|] == most;
      assert order[..|Flatten(init)|] + piece == order[..|Flatten(batches)|];
      most + [piece]
  }

  lemma {:induction false} CutAt(order: seq<int>, batches: seq<seq<int>>, k: nat)
    requires |Flatten(batches)| <= |order| && k < |batches|
    ensures Start(batches, k) <= Start(batches, k + 1) <= |order|
    ensures Cut(order, batches)[k] == order[Start(batches, k)..Start(batches, k + 1)]
  {
    var n := |batches| - 1;
    BatchIsSlice(batches, k);
    assert batches[..n + 1] == batches;
    if k < n {
      var init := batches[..n];
      CutAt(order, init, k);
      assert init[..k] == batches[..k] && init[..k + 1] == batches[..k + 1];
    }
  }

  /** Any grouping of the rows into allowed batches can be made one of consecutive rows, with as many batches. */
  lemma Consecutive(lengths: seq<nat>, order: seq<int>, other: seq<seq<int>>, maxBatch: int, budget: int)
    returns (pieces: seq<seq<int>>)
    requires Sorted(order, NoLonger(lengths)) && multiset(order) == multiset(Flatten(other))
    requires AllAllowed(lengths, other, maxBatch, budget)
    ensures |pieces| == |other| && Flatten(pieces) == order && AllAllowed(lengths, pieces, maxBatch, budget)
  {
    var le := Narrower(lengths);
    var batches := Sort(other, le);
    SortSorts(other, le);
    FlattenSort(other, le);
    forall k | 0 <= k < |batches| ensures Allowed(lengths, batches[k], maxBatch, budget) {
      SortMembers(other, le, batches[k]);
      var j :| 0 <= j < |other| && other[j] == batches[k];
    }
    SameLength(order, Flatten(batches));
    pieces := Cut(order, batches);
    assert order[..|order|] == order;
    forall k | 0 <= k < |pieces| ensures Allowed(lengths, pieces[k], maxBatch, budget) {
      CutFits(lengths, order, batches, k, maxBatch, budget);
      CutAt(order, batches, k);
      FitsIsAllowed(lengths, order, Start(batches, k), Start(batches, k + 1), maxBatch, budget);
    }
  }

  /** No grouping of the rows into allowed batches, consecutive or not, has fewer batches. */
  ghost predicate NoFewer(lengths: seq<nat>, count: nat, maxBatch: int, budget: int) {
    forall other: seq<seq<int>> {:trigger Flatten(other)} ::
      multiset(Flatten(other)) == multiset(Indices(|lengths|)) && AllAllowed(lengths, other, maxBatch, budget) ==>
        count <= |other|
  }

  lemma GreedyBeatsAll(lengths: seq<nat>, batches: seq<seq<int>>, maxBatch: int, budget: int)
    requires Flatten(batches) == ByLength(lengths) && Greedy(lengths, ByLength(lengths), batches, maxBatch, budget)
    ensures NoFewer(lengths, |batches|, maxBatch, budget)
  {
    ByLengthIsStable(lengths);
    forall other: seq<seq<int>> | multiset(Flatten(other)) == multiset(Indices(|lengths|))
      && AllAllowed(lengths, other, maxBatch, budget)
      ensures |batches| <= |other|
    {
      var pieces := Consecutive(lengths, ByLength(lengths), other, maxBatch, budget);
      GreedyIsOptimal(lengths, ByLength(lengths), batches, pieces, maxBatch, budget);
    }
  }

  ghost predicate InRange(rows: seq<int>, n: nat) {
    forall k :: 0 <= k < |rows| ==> 0 <= rows[k] < n
  }

  /** One greedy batch from `pos`. */
  method TakeBatch(lengths: seq<nat>, order: seq<int>, pos: nat, maxBatch: int, budget: int) returns (e: nat)
    requires pos < |order| && Sorted(order, NoLonger(lengths)) && InRange(order, |lengths|)
    ensures Fits(lengths, order, pos, e, maxBatch, budget)
    ensures !Fits(lengths, order, pos, e + 1, maxBatch, budget)
  {
    var take := 1;
    var tMax := lengths[order[pos]];
    while take < maxBatch && pos + take < |order|
      invariant Fits(lengths, order, pos, pos + take, maxBatch, budget)
      invariant tMax == LengthOf(lengths, order[pos + take - 1])
    {
      var next := lengths[order[pos + take]];
      assert NoLonger(lengths)(order[pos + take - 1], order[pos + take]);
      var cand := if tMax < next then next else tMax;
      if cand * cand * (take + 1) > budget {
        return pos + take;
      }
      tMax := cand;
      take := take + 1;
    }
    e := pos + take;
  }

  method PlanBatches(lengths: seq<nat>, maxBatch: int, budget: int) returns (batches: seq<seq<int>>)
    ensures Flatten(batches) == ByLength(lengths)
    ensures AllAllowed(lengths, batches, maxBatch, budget)
    ensures NoFewer(lengths, |batches|, maxBatch, budget)
  {
    var order := ByLength(lengths);
    ByLengthIsStable(lengths);
    OrderInRange(lengths);
    batches := [];
    var pos := 0;
    while pos < |order|
      invariant pos <= |order| && Flatten(batches) == order[..pos]
      invariant Greedy(lengths, order, batches, maxBatch, budget)
    {
      var e := TakeBatch(lengths, order, pos, maxBatch, budget);
      CloseBatch(lengths, order, batches, pos, e, maxBatch, budget);
      batches := batches + [order[pos..e]];
      pos := e;
    }
    assert order[..pos] == order;
    GreedyIsAllowed(lengths, order, batches, maxBatch, budget);
    GreedyBeatsAll(lengths, batches, maxBatch, budget);
  }

  lemma OrderInRange(lengths: seq<nat>)
    ensures InRange(ByLength(lengths), |lengths|)
    ensures forall i :: 0 <= i < |lengths| ==> i in ByLength(lengths)
  {
    var all, order := Indices(|lengths|), ByLength(lengths);
    forall k | 0 <= k < |order| ensures 0 <= order[k] < |lengths| {
      SortMembers(all, NoLonger(lengths), order[k]);
    }
    forall i | 0 <= i < |lengths| ensures i in order {
      assert all[i] == i;
      SortMembers(all, NoLonger(lengths), i);
    }
  }

  // ---- forward passes ----

  datatype Outcome = Succeeded | OutOfMemory | OtherError

  /** One forward pass: which rows, and how it ended. */
  datatype Pass = Pass(rows: seq<int>, outcome: Outcome)

  /** An allocation failure on a batch that can still be split. */
  predicate Splittable(p: Pass) { p.outcome.OutOfMemory? && |p.rows| > 1 }

  predicate Benign(p: Pass) { p.outcome.Succeeded? || Splittable(p) }

  ghost predicate AllBenign(log: seq<Pass>) {
    forall k :: 0 <= k < |log| ==> Benign(log[k])
  }

  /** The inference session. `ending` decides which calls fail, in whatever pattern; a pass that succeeds
      gives one vector for each row. */
  class Session<V(!new)> {
    const ending: (nat, seq<int>) -> Outcome
    const vectors: seq<int> -> seq<V>
    ghost var log: seq<Pass>
    var calls: nat

    constructor (ending: (nat, seq<int>) -> Outcome, vectors: seq<int> -> seq<V>)
      ensures this.ending == ending && this.vectors == vectors && log == [] && calls == 0
    {
      this.ending, this.vectors := ending, vectors;
      log, calls := [], 0;
    }

    method Forward(rows: seq<int>) returns (outcome: Outcome, vecs: seq<V>)
      modifies this
      ensures outcome == ending(old(calls), rows) && calls == old(calls) + 1
      ensures log == old(log) + [Pass(rows, outcome)]
      ensures outcome.Succeeded? ==> vecs == vectors(rows)
    {
      outcome := ending(calls, rows);
      vecs := vectors(rows);
      calls := calls + 1;
      log := log + [Pass(rows, outcome)];
    }
  }

  /** Each row's vector is its own, whatever the batch it is in. */
  ghost predicate RowByRow<V(!new)>(vectors: seq<int> -> seq<V>, f: int -> V, n: nat) {
    forall rows: seq<int> :: rows != [] && InRange(rows, n) ==> OwnVectors(rows, vectors(rows), f)
  }

  ghost predicate OwnVectors<V(!new)>(rows: seq<int>, vecs: seq<V>, f: int -> V) {
    |vecs| == |rows| && forall k :: 0 <= k < |rows| ==> vecs[k] == f(rows[k])
  }

  /** `now` differs from `before` only by vectors of rows in `rows`. */
  ghost predicate OnlyFilled<V(!new)>(before: seq<Option<V>>, now: seq<Option<V>>, rows: seq<int>, f: int -> V) {
    && |now| == |before|
    && forall i :: 0 <= i < |now| ==> now[i] == before[i] || (i in rows && now[i] == Some(f(i)))
  }

  ghost predicate Filled<V(!new)>(now: seq<Option<V>>, rows: seq<int>, f: int -> V) {
    forall i :: i in rows ==> 0 <= i < |now| && now[i] == Some(f(i))
  }

  lemma AppendBenign(a: seq<Pass>, b: seq<Pass>)
    ensures AllBenign(a + b) <==> AllBenign(a) && AllBenign(b)
  {
    forall k | 0 <= k < |b| ensures (a + b)[|a| + k] == b[k] {
    }
    forall k | 0 <= k < |a| ensures (a + b)[k] == a[k] {
    }
    if AllBenign(a + b) {
      forall k | 0 <= k < |b| ensures Benign(b[k]) {
        assert Benign((a + b)[|a| + k]);
      }
    }
  }

  method Store<V(!new)>(rows: seq<int>, vecs: seq<V>, out: array<Option<V>>, ghost f: int -> V)
    requires InRange(rows, out.Length) && OwnVectors(rows, vecs, f)
    modifies out
    ensures OnlyFilled(old(out[..]), out[..], rows, f) && Filled(out[..], rows, f)
  {
    for row := 0 to |rows|
      invariant OnlyFilled(old(out[..]), out[..], rows, f) && Filled(out[..], rows[..row], f)
    {
      out[rows[row]] := Some(vecs[row]);
    }
    assert rows[..|rows|] == rows;
  }

  /** How a call that embeds `rows` may end: on success every row is filled and no pass failed for good;
      otherwise its last pass is what made it fail. */
  ghost predicate Ended<V(!new)>(before: seq<Option<V>>, now: seq<Option<V>>, rows: seq<int>, f: int -> V,
                                 r: Outcome, passes: seq<Pass>) {
    && OnlyFilled(before, now, rows, f)
    && (r.Succeeded? ==> Filled(now, rows, f))
    && (r.Succeeded? <==> AllBenign(passes))
    && (!r.Succeeded? ==> passes != [] && passes[|passes| - 1].outcome == r)
  }

  lemma FailedAlone<V(!new)>(now: seq<Option<V>>, rows: seq<int>, f: int -> V, r: Outcome)
    requires !Benign(Pass(rows, r))
    ensures Ended(now, now, rows, f, r, [Pass(rows, r)])
  {
    assert !Benign([Pass(rows, r)][0]);
  }

  lemma StoredAtOnce<V(!new)>(before: seq<Option<V>>, now: seq<Option<V>>, rows: seq<int>, f: int -> V)
    requires OnlyFilled(before, now, rows, f) && Filled(now, rows, f)
    ensures Ended(before, now, rows, f, Succeeded, [Pass(rows, Succeeded)])
  {
  }

  lemma LeftFailed<V(!new)>(before: seq<Option<V>>, now: seq<Option<V>>, left: seq<int>, right: seq<int>, f: int -> V,
                            r: Outcome, first: Pass, passes: seq<Pass>)
    requires Benign(first) && !r.Succeeded? && Ended(before, now, left, f, r, passes)
    ensures Ended(before, now, left + right, f, r, [first] + passes)
  {
    AppendBenign([first], passes);
  }

  lemma BothHalves<V(!new)>(s0: seq<Option<V>>, s1: seq<Option<V>>, s2: seq<Option<V>>, left: seq<int>, right: seq<int>,
                            f: int -> V, r: Outcome, first: Pass, p1: seq<Pass>, p2: seq<Pass>)
    requires Benign(first) && Ended(s0, s1, left, f, Succeeded, p1) && Ended(s1, s2, right, f, r, p2)
    ensures Ended(s0, s2, left + right, f, r, [first] + p1 + p2)
  {
    AppendBenign([first], p1);
    AppendBenign([first] + p1, p2);
    FillBoth(s0, s1, s2, left, right, f);
  }

  /** Two fills, one after the other. */
  lemma FillBoth<V(!new)>(s0: seq<Option<V>>, s1: seq<Option<V>>, s2: seq<Option<V>>, left: seq<int>, right: seq<int>,
                   f: int -> V)
    requires OnlyFilled(s0, s1, left, f) && OnlyFilled(s1, s2, right, f) && Filled(s1, left, f)
    ensures OnlyFilled(s0, s2, left + right, f)
    ensures Filled(s2, right, f) ==> Filled(s2, left + right, f)
  {
  }

  lemma Halves(rows: seq<int>, mid: nat, n: nat)
    requires mid <= |rows| && InRange(rows, n)
    ensures rows[..mid] + rows[mid..] == rows && InRange(rows[..mid], n) && InRange(rows[mid..], n)
  {
  }

  /** Halve on allocation failures until every row is stored, or until something else fails. It succeeds
      exactly when nothing but splittable allocation failures happened along the way. */
  method ForwardSplit<V(!new)>(session: Session<V>, rows: seq<int>, out: array<Option<V>>, ghost f: int -> V)
    returns (r: Outcome, ghost passes: seq<Pass>)
    requires RowByRow(session.vectors, f, out.Length) && rows != [] && InRange(rows, out.Length)
    modifies session, out
    ensures session.log == old(session.log) + passes
    ensures Ended(old(out[..]), out[..], rows, f, r, passes)
    decreases |rows|
  {
    ghost var s0 := out[..];
    var outcome, vecs := session.Forward(rows);
    ghost var first := Pass(rows, outcome);
    if !outcome.Succeeded? {
      if !outcome.OutOfMemory? || |rows| == 1 {
        FailedAlone(s0, rows, f, outcome);
        return outcome, [first];
      }
      var mid := |rows| / 2;
      Halves(rows, mid, out.Length);
      ghost var left, right;
      r, left := ForwardSplit(session, rows[..mid], out, f);
      ghost var s1 := out[..];
      if !r.Succeeded? {
        LeftFailed(s0, s1, rows[..mid], rows[mid..], f, r, first, left);
        return r, [first] + left;
      }
      r, right := ForwardSplit(session, rows[mid..], out, f);
      BothHalves(s0, s1, out[..], rows[..mid], rows[mid..], f, r, first, left, right);
      return r, [first] + left + right;
    }
    assert OwnVectors(rows, session.vectors(rows), f);
    Store(rows, vecs, out, f);
    StoredAtOnce(s0, out[..], rows, f);
    return Succeeded, [first];
  }

  datatype Embedded<V> = Vectors(vecs: seq<V>) | Raised(outcome: Outcome) | Missing(count: nat)

  lemma BatchInRange(batches: seq<seq<int>>, k: nat, n: nat)
    requires k < |batches| && InRange(Flatten(batches), n)
    ensures InRange(batches[k], n)
  {
    BatchIsSlice(batches, k);
  }

  ghost predicate FilledUpTo<V(!new)>(now: seq<Option<V>>, batches: seq<seq<int>>, b: nat, f: int -> V)
    requires b <= |batches|
  {
    forall k :: 0 <= k < b ==> Filled(now, batches[k], f)
  }

  lemma KeepsFilled<V(!new)>(before: seq<Option<V>>, now: seq<Option<V>>, batches: seq<seq<int>>, b: nat, f: int -> V)
    requires b < |batches| && OnlyFilled(before, now, batches[b], f) && Filled(now, batches[b], f)
    requires FilledUpTo(before, batches, b, f)
    ensures FilledUpTo(now, batches, b + 1, f)
  {
    forall k | 0 <= k < b ensures Filled(now, batches[k], f) {
      assert Filled(before, batches[k], f);
    }
  }

  lemma AllFilled<V(!new)>(now: seq<Option<V>>, batches: seq<seq<int>>, f: int -> V, i: int)
    requires i in Flatten(batches) && FilledUpTo(now, batches, |batches|, f)
    ensures 0 <= i < |now| && now[i] == Some(f(i))
  {
    var k := InSomeBatch(batches, i);
    assert Filled(now, batches[k], f);
  }

  /** Copy the vectors out, counting those that are missing. */
  method Collect<V(!new)>(out: array<Option<V>>) returns (r: Embedded<V>)
    ensures r.Vectors? <==> forall i :: 0 <= i < out.Length ==> out[i].Some?
    ensures r.Vectors? ==> |r.vecs| == out.Length && forall i :: 0 <= i < out.Length ==> out[i] == Some(r.vecs[i])
    ensures !r.Raised?
  {
    var vecs: seq<V> := [];
    var missing := 0;
    for i := 0 to out.Length
      invariant missing == 0 <==> forall j :: 0 <= j < i ==> out[j].Some?
      invariant missing == 0 ==> |vecs| == i && forall j :: 0 <= j < i ==> out[j] == Some(vecs[j])
    {
      match out[i]
      case None => missing := missing + 1;
      case Some(v) => vecs := vecs + [v];
    }
    r := if missing > 0 then Missing(missing) else Vectors(vecs);
  }

  /** The batches one after another, until one of them fails. */
  method ForwardAll<V(!new)>(session: Session<V>, batches: seq<seq<int>>, out: array<Option<V>>, ghost f: int -> V)
    returns (r: Outcome, ghost passes: seq<Pass>)
    requires RowByRow(session.vectors, f, out.Length) && InRange(Flatten(batches), out.Length)
    requires forall k :: 0 <= k < |batches| ==> batches[k] != []
    modifies session, out
    ensures session.log == old(session.log) + passes
    ensures r.Succeeded? <==> AllBenign(passes)
    ensures r.Succeeded? ==> FilledUpTo(out[..], batches, |batches|, f)
  {
    passes := [];
    for b := 0 to |batches|
      invariant session.log == old(session.log) + passes && AllBenign(passes)
      invariant FilledUpTo(out[..], batches, b, f)
    {
      BatchInRange(batches, b, out.Length);
      ghost var before := out[..];
      ghost var more;
      r, more := ForwardSplit(session, batches[b], out, f);
      AppendBenign(passes, more);
      passes := passes + more;
      if !r.Succeeded? {
        return;
      }
      KeepsFilled(before, out[..], batches, b, f);
    }
    r := Succeeded;
  }

  lemma NoneEmpty(lengths: seq<nat>, batches: seq<seq<int>>, maxBatch: int, budget: int)
    requires AllAllowed(lengths, batches, maxBatch, budget)
    ensures forall k :: 0 <= k < |batches| ==> batches[k] != []
  {
    forall k | 0 <= k < |batches| ensures batches[k] != [] {
      assert Allowed(lengths, batches[k], maxBatch, budget);
    }
  }

  /** Whatever allocations fail: the vectors are, in input order, those of the texts on their own, unless
      a single row cannot be allocated or something else fails. No text is ever left without one. */
  method EmbedSequences<V(!new)>(session: Session<V>, lengths: seq<nat>, maxBatch: int, budget: int, ghost f: int -> V)
    returns (r: Embedded<V>, ghost passes: seq<Pass>)
    requires RowByRow(session.vectors, f, |lengths|)
    modifies session
    ensures session.log == old(session.log) + passes
    ensures r.Vectors? <==> AllBenign(passes)
    ensures r.Vectors? ==> |r.vecs| == |lengths| && forall i :: 0 <= i < |lengths| ==> r.vecs[i] == f(i)
    ensures r.Raised? <==> !AllBenign(passes)
  {
    var n := |lengths|;
    var out := new Option<V>[n](i => None);
    var batches := PlanBatches(lengths, maxBatch, budget);
    OrderInRange(lengths);
    NoneEmpty(lengths, batches, maxBatch, budget);
    var outcome;
    outcome, passes := ForwardAll(session, batches, out, f);
    if !outcome.Succeeded? {
      return Raised(outcome), passes;
    }
    forall i | 0 <= i < n ensures out[..][i] == Some(f(i)) {
      AllFilled(out[..], batches, f, i);
    }
    r := Collect(out);
  }
}
