/** The call stream of the query-cache harness: a shuffled first pass over the distinct queries,
    interleaved with repeats that look back at most `MAX_REPEAT_GAP` calls. */
module QueryStream {
  import opened Basics
  import opened Random

  const MAX_REPEAT_GAP: nat := 20

  datatype Call = Call(query: int, repeat: bool)

  /** `StillDrawing`: the repeat slots were not all found within the allowed number of draws. */
  datatype Built = Calls(calls: seq<Call>) | BadDistinct | BadRate | StillDrawing

  // ---- the shuffle ----

  /** An order in which to ask queries `0..n`, each exactly once. */
  ghost predicate IsOrder(s: seq<int>, n: nat) {
    |s| == n && NoDuplicates(s) && multiset(s) == multiset(Indices(n))
  }

  function Swap(s: seq<int>, i: nat, j: nat): (t: seq<int>)
    requires i < |s| && j < |s|
    ensures |t| == |s|
  {
    s[i := s[j]][j := s[i]]
  }

  /** What is left of the shuffle from position `i` down, on draw number `k`. */
  function Shuffled(s: seq<int>, i: nat, rand: Stream, k: nat): (t: seq<int>)
    requires s == [] || i < |s|
    ensures |t| == |s|
    decreases i
  {
    if i == 0 || s == [] then s
    else
      var j := Draw(rand, k, i + 1);
      if 0 <= j <= i then Shuffled(Swap(s, i, j), i - 1, rand, k + 1) else s
  }

  method Shuffle(order: array<int>, rand: Stream) returns (draws: nat)
    requires InUnit(rand) && order.Length > 0
    modifies order
    ensures order[..] == Shuffled(old(order[..]), order.Length - 1, rand, 0)
    ensures draws == order.Length - 1
  {
    draws := 0;
    var i := order.Length - 1;
    while i > 0
      invariant 0 <= i < order.Length && draws == order.Length - 1 - i
      invariant Shuffled(order[..], i, rand, draws) == Shuffled(old(order[..]), order.Length - 1, rand, 0)
    {
      var j := Draw(rand, draws, i + 1);
      DrawInRange(rand, draws, i + 1);
      ghost var before := order[..];
      order[i], order[j] := order[j], order[i];
      assert order[..] == Swap(before, i, j);
      draws := draws + 1;
      i := i - 1;
    }
  }

  method ShuffledQueries(distinct: nat, rand: Stream) returns (order: seq<int>, draws: nat)
    requires InUnit(rand) && distinct > 0
    ensures order == Shuffled(Indices(distinct), distinct - 1, rand, 0) && draws == distinct - 1
  {
    var queries := new int[distinct](i => i);
    assert queries[..] == Indices(distinct);
    draws := Shuffle(queries, rand);
    order := queries[..];
  }

  lemma SwapKeepsOrder(s: seq<int>, i: nat, j: nat, n: nat)
    requires IsOrder(s, n) && i < n && j < n
    ensures IsOrder(Swap(s, i, j), n)
  {
    assert multiset(Swap(s, i, j)) == multiset(s);
  }

  /** Shuffling loses no query and repeats none. */
  lemma {:induction false} ShuffledIsOrder(s: seq<int>, i: nat, rand: Stream, k: nat, n: nat)
    requires IsOrder(s, n) && i < n
    ensures IsOrder(Shuffled(s, i, rand, k), n)
    decreases i
  {
    var j := Draw(rand, k, i + 1);
    if i > 0 && 0 <= j <= i {
      SwapKeepsOrder(s, i, j, n);
      ShuffledIsOrder(Swap(s, i, j), i - 1, rand, k + 1, n);
    }
  }

  ghost predicate SameFrom(a: Stream, b: Stream, k: nat) {
    forall m: nat :: m >= k ==> a(m) == b(m)
  }

  lemma SameDraw(a: Stream, b: Stream, k: nat, n: nat)
    requires SameFrom(a, b, k)
    ensures Draw(a, k, n) == Draw(b, k, n)
  {
    assert a(k) == b(k);
  }

  lemma {:induction false} ShuffledUsesLaterDraws(s: seq<int>, i: nat, a: Stream, b: Stream, k: nat)
    requires i < |s| && SameFrom(a, b, k)
    ensures Shuffled(s, i, a, k) == Shuffled(s, i, b, k)
    decreases i
  {
    if i > 0 {
      SameDraw(a, b, k, i + 1);
      var j := Draw(a, k, i + 1);
      if 0 <= j <= i {
        ShuffledUsesLaterDraws(Swap(s, i, j), i - 1, a, b, k + 1);
      }
    }
  }

  ghost predicate AgreeAbove(s: seq<int>, t: seq<int>, i: int) {
    |s| == |t| && forall m :: 0 <= m < |s| && m > i ==> s[m] == t[m]
  }

  /** In two orders that agree above `i`, the element that belongs at `i` sits at or below it. */
  lemma FindBelow(s: seq<int>, t: seq<int>, n: nat, i: nat) returns (j: nat)
    requires IsOrder(s, n) && IsOrder(t, n) && i < n && AgreeAbove(s, t, i)
    ensures j <= i && s[j] == t[i]
  {
    assert t[i] in multiset(t);
    assert t[i] in multiset(s);
    j :| 0 <= j < n && s[j] == t[i];
  }

  function First(j: nat, i: nat, k: nat, rest: Stream): Stream {
    (m: nat) => if m == k then j as real / (i + 1) as real else rest(m)
  }

  lemma FirstDraws(j: nat, i: nat, k: nat, rest: Stream)
    requires j <= i && InUnit(rest)
    ensures InUnit(First(j, i, k, rest)) && Draw(First(j, i, k, rest), k, i + 1) == j
  {
    var x, n := j as real, (i + 1) as real;
    assert x / n * n == x;
    assert 0.0 <= x / n < 1.0;
  }

  lemma {:induction false} SomeDrawsGive(s: seq<int>, t: seq<int>, n: nat, i: nat, k: nat) returns (rand: Stream)
    requires IsOrder(s, n) && IsOrder(t, n) && i < n && AgreeAbove(s, t, i)
    ensures InUnit(rand) && Shuffled(s, i, rand, k) == t
    decreases i
  {
    var j := FindBelow(s, t, n, i);
    if i == 0 {
      rand := (m: nat) => 0.0;
      assert s == t;
    } else {
      SwapKeepsOrder(s, i, j, n);
      var s' := Swap(s, i, j);
      assert AgreeAbove(s', t, i - 1);
      var rest := SomeDrawsGive(s', t, n, i - 1, k + 1);
      rand := First(j, i, k, rest);
      FirstDraws(j, i, k, rest);
      ShuffledUsesLaterDraws(s', i - 1, rand, rest, k + 1);
    }
  }

  /** The shuffle can produce every order of the queries: no order is out of its reach. */
  lemma EveryOrderIsReached(t: seq<int>, n: nat) returns (rand: Stream)
    requires n > 0 && IsOrder(t, n)
    ensures InUnit(rand) && Shuffled(Indices(n), n - 1, rand, 0) == t
  {
    rand := SomeDrawsGive(Indices(n), t, n, n - 1, 0);
  }

  lemma {:induction false} ShuffledKeepsAbove(s: seq<int>, i: nat, rand: Stream, k: nat, m: nat)
    requires i < m < |s|
    ensures Shuffled(s, i, rand, k)[m] == s[m]
    decreases i
  {
    var j := Draw(rand, k, i + 1);
    if i > 0 && 0 <= j <= i {
      ShuffledKeepsAbove(Swap(s, i, j), i - 1, rand, k + 1, m);
    }
  }

  /** Draw number `d` picks the same place in both streams; with draw number `end` there are none left to pick. */
  predicate SamePick(a: Stream, b: Stream, d: nat, end: nat)
    requires d <= end
  {
    Draw(a, d, end - d) == Draw(b, d, end - d)
  }

  ghost predicate SamePicks(a: Stream, b: Stream, k: nat, end: nat) {
    forall d: nat :: k <= d < end - 1 ==> SamePick(a, b, d, end)
  }

  /** The place picked first gives up its query to position `i` for good. */
  lemma PickedComesLast(s: seq<int>, i: nat, rand: Stream, k: nat)
    requires 0 < i < |s| && InUnit(rand)
    ensures 0 <= Draw(rand, k, i + 1) <= i && Shuffled(s, i, rand, k)[i] == s[Draw(rand, k, i + 1)]
  {
    DrawInRange(rand, k, i + 1);
    ShuffledKeepsAbove(Swap(s, i, Draw(rand, k, i + 1)), i - 1, rand, k + 1, i);
  }

  lemma {:induction false} PicksDetermine(s: seq<int>, i: nat, a: Stream, b: Stream, k: nat)
    requires NoDuplicates(s) && i < |s| && InUnit(a) && InUnit(b)
    ensures Shuffled(s, i, a, k) == Shuffled(s, i, b, k) <==> SamePicks(a, b, k, k + i + 1)
    decreases i
  {
    if i > 0 {
      PickedComesLast(s, i, a, k);
      PickedComesLast(s, i, b, k);
      var j := Draw(a, k, i + 1);
      assert SamePicks(a, b, k, k + i + 1) <==> SamePick(a, b, k, k + i + 1) && SamePicks(a, b, k + 1, k + i + 1);
      if SamePick(a, b, k, k + i + 1) {
        PicksDetermine(Swap(s, i, j), i - 1, a, b, k + 1);
      }
    }
  }

  /** Different picks give different orders. As every order is reached, each comes from exactly one way to pick, so
      equally likely picks make equally likely orders. */
  lemma EachOrderOnce(n: nat, a: Stream, b: Stream)
    requires n > 0 && InUnit(a) && InUnit(b)
    ensures Shuffled(Indices(n), n - 1, a, 0) == Shuffled(Indices(n), n - 1, b, 0) <==> SamePicks(a, b, 0, n)
  {
    PicksDetermine(Indices(n), n - 1, a, b, 0);
  }

  // ---- the repeats ----

  function Ceil(x: real): int { -((-x).Floor) }

  lemma RatioNonNegative(distinct: nat, rate: real)
    requires 0.0 <= rate < 1.0
    ensures distinct as real * rate / (1.0 - rate) >= 0.0
  {
    var x, y := distinct as real * rate, 1.0 - rate;
    assert x >= 0.0 && y > 0.0;
    assert x / y >= 0.0;
  }

  /** How many repeats make up the rate. */
  function Repeats(distinct: nat, rate: real): (n: nat)
    requires 0.0 <= rate < 1.0
  {
    if rate == 0.0 then 0
    else
      RatioNonNegative(distinct, rate);
      Ceil(distinct as real * rate / (1.0 - rate))
  }

  lemma FractionBounds(n: real, x: real, r: real, rate: real)
    requires 0.0 < rate < 1.0 && x * (1.0 - rate) == n * rate && x <= r < x + 1.0
    ensures rate * (n + r) <= r < rate * (n + r) + 1.0
  {
    RealTimesMonotone(x, r, 1.0 - rate);
    RealTimesMonotone(r - 1.0, x, 1.0 - rate);
    assert r * (1.0 - rate) == r - rate * r;
    assert (r - 1.0) * (1.0 - rate) == r - 1.0 - rate * r + rate;
    assert rate * (n + r) == rate * n + rate * r;
  }

  /** Repeats make up `rate` of the stream, to within one call. */
  lemma FractionWithinOneCall(distinct: nat, rate: real)
    requires 0.0 <= rate < 1.0
    ensures var total := (distinct + Repeats(distinct, rate)) as real;
      rate * total <= Repeats(distinct, rate) as real < rate * total + 1.0
  {
    if rate > 0.0 {
      var x := distinct as real * rate / (1.0 - rate);
      FractionBounds(distinct as real, x, Repeats(distinct, rate) as real, rate);
    }
  }

  /** How many of the positions below `p` are slots. */
  function SlotsBelow(slots: set<int>, p: nat): (n: nat)
    ensures n <= p
  {
    if p == 0 then 0 else SlotsBelow(slots, p - 1) + (if p - 1 in slots then 1 else 0)
  }

  lemma {:induction false} SlotsBelowGrows(slots: set<int>, p: nat, q: nat)
    requires p <= q
    ensures SlotsBelow(slots, p) <= SlotsBelow(slots, q) <= SlotsBelow(slots, p) + (q - p)
  {
    if p < q {
      SlotsBelowGrows(slots, p, q - 1);
    }
  }

  lemma {:induction false} AllSlots(slots: set<int>, total: nat)
    requires forall x :: x in slots ==> 0 <= x < total
    ensures SlotsBelow(slots, total) == |slots|
  {
    if total == 0 {
      assert forall x :: x !in slots;
      assert |slots| == 0;
    } else {
      var rest := slots - {total - 1};
      AllSlots(rest, total - 1);
      SameSlots(slots, rest, total - 1);
      assert total - 1 in slots ==> slots == rest + {total - 1};
      assert total - 1 !in slots ==> slots == rest;
    }
  }

  lemma {:induction false} SameSlots(a: set<int>, b: set<int>, p: nat)
    requires forall x :: 0 <= x < p ==> (x in a <==> x in b)
    ensures SlotsBelow(a, p) == SlotsBelow(b, p)
  {
    if p > 0 {
      SameSlots(a, b, p - 1);
    }
  }

  /** The positions that `count` draws from draw number `first` on pick, any but position 0. */
  function Picked(total: nat, rand: Stream, first: nat, count: nat): set<int> {
    if count == 0 || total == 0 then {}
    else Picked(total, rand, first, count - 1) + {1 + Draw(rand, first + count - 1, total - 1)}
  }

  /** `u` falls in share number `x` of `n` equal shares of the unit interval. */
  ghost predicate Hits(u: real, n: nat, x: int) {
    n > 0 && (x - 1) as real / n as real <= u < x as real / n as real
  }

  lemma {:induction false} PickedAreHit(total: nat, rand: Stream, first: nat, count: nat, x: int)
    requires total > 1
    ensures x in Picked(total, rand, first, count)
      <==> exists k: nat :: first <= k < first + count && Hits(rand(k), total - 1, x)
  {
    if count > 0 {
      PickedAreHit(total, rand, first, count - 1, x);
      DrawIsShare(rand, first + count - 1, total - 1, x - 1);
      if k: nat :| first <= k < first + count && Hits(rand(k), total - 1, x) {
        assert k == first + count - 1 || k < first + (count - 1);
      }
    }
  }

  /** The draws needed: `count` of them hit `wanted` positions, and one fewer does not. */
  ghost predicate JustEnough(total: nat, rand: Stream, first: nat, count: nat, wanted: nat) {
    && |Picked(total, rand, first, count)| == wanted
    && (count > 0 ==> |Picked(total, rand, first, count - 1)| < wanted)
  }

  lemma {:induction false} PickedGrows(total: nat, rand: Stream, first: nat, c: nat, d: nat)
    requires c <= d
    ensures |Picked(total, rand, first, c)| <= |Picked(total, rand, first, d)|
  {
    if c < d {
      PickedGrows(total, rand, first, c, d - 1);
      if total > 0 {
        AddGrows(Picked(total, rand, first, d - 1), 1 + Draw(rand, first + d - 1, total - 1));
      }
    }
  }

  lemma AddGrows(s: set<int>, x: int)
    ensures |s| <= |s + {x}| <= |s| + 1
  {
    if x in s {
      assert s + {x} == s;
    } else {
      assert s !! {x};
    }
  }

  /** The slots after `count` draws. */
  ghost predicate Drawn(total: nat, rand: Stream, first: nat, count: nat, slots: set<int>) {
    slots == Picked(total, rand, first, count) && forall x :: x in slots ==> 0 < x < total
  }

  lemma DrawOne(total: nat, rand: Stream, first: nat, count: nat, slots: set<int>)
    requires InUnit(rand) && total > 1 && Drawn(total, rand, first, count, slots)
    ensures var more := slots + {1 + Draw(rand, first + count, total - 1)};
      Drawn(total, rand, first, count + 1, more) && |slots| <= |more| <= |slots| + 1
  {
    DrawInRange(rand, first + count, total - 1);
    AddGrows(slots, 1 + Draw(rand, first + count, total - 1));
  }

  /** Stopping early misses nothing: the draws up to the limit hit enough positions exactly when those made did. */
  lemma DrawnEnough(total: nat, rand: Stream, first: nat, count: nat, limit: nat, slots: set<int>, repeats: nat)
    requires Drawn(total, rand, first, count, slots) && count <= limit
    requires |slots| == repeats || (|slots| < repeats && count == limit)
    ensures |slots| == repeats <==> |Picked(total, rand, first, limit)| >= repeats
  {
    PickedGrows(total, rand, first, count, limit);
  }

  /** Draw positions until there are `repeats` different ones, at most `limit` times. */
  method DrawSlots(total: nat, repeats: nat, rand: Stream, first: nat, limit: nat) returns (slots: set<int>, draws: nat)
    requires InUnit(rand) && repeats < total
    ensures forall x :: x in slots ==> 0 < x < total
    ensures first <= draws <= first + limit && slots == Picked(total, rand, first, draws - first)
    ensures |slots| <= repeats && (|slots| == repeats <==> |Picked(total, rand, first, limit)| >= repeats)
    ensures |slots| == repeats ==> JustEnough(total, rand, first, draws - first, repeats)
  {
    slots := {};
    var count := 0;
    while |slots| < repeats && count < limit
      invariant count <= limit && |slots| <= repeats && Drawn(total, rand, first, count, slots)
      invariant count > 0 ==> |Picked(total, rand, first, count - 1)| < repeats
      decreases limit - count
    {
      DrawOne(total, rand, first, count, slots);
      var slot := 1 + Draw(rand, first + count, total - 1);
      slots := slots + {slot};
      count := count + 1;
    }
    draws := first + count;
    DrawnEnough(total, rand, first, count, limit, slots, repeats);
  }

  // ---- the stream ----

  /** The queries of the calls that are not repeats, in order. */
  function FirstSightings(calls: seq<Call>): (qs: seq<int>)
    ensures |qs| <= |calls|
  {
    if calls == [] then []
    else
      var last := calls[|calls| - 1];
      FirstSightings(calls[..|calls| - 1]) + (if last.repeat then [] else [last.query])
  }

  /** Call `p` asks what a call at most `MAX_REPEAT_GAP` before it asked. */
  ghost predicate LooksBack(calls: seq<Call>, p: nat)
    requires p < |calls|
  {
    exists before :: 0 <= before < p <= before + MAX_REPEAT_GAP && calls[before].query == calls[p].query
  }

  ghost predicate RepeatsLookBack(calls: seq<Call>) {
    forall p :: 0 <= p < |calls| && calls[p].repeat ==> LooksBack(calls, p)
  }

  /** Call `p` asks what the call `gap` before it asked: `u` falls in share number `gap` of as many equal shares of
      the unit interval as there are calls to look back to. */
  ghost predicate AsksAgain(calls: seq<Call>, p: nat, gap: nat, u: real)
    requires p < |calls|
  {
    var reach := if MAX_REPEAT_GAP < p then MAX_REPEAT_GAP else p;
    && 0 < gap <= reach && calls[p].query == calls[p - gap].query
    && Hits(u, reach, gap)
  }

  ghost predicate PlacedAt(calls: seq<Call>, p: nat, slots: set<int>, u: real)
    requires p < |calls|
  {
    && (calls[p].repeat <==> p in slots)
    && (p in slots ==> exists gap :: AsksAgain(calls, p, gap, u))
  }

  /** The repeats are the calls in the slots, and each looks back as its own draw says, from draw number `first` on. */
  ghost predicate Placed(calls: seq<Call>, slots: set<int>, rand: Stream, first: nat) {
    forall p :: 0 <= p < |calls| ==> PlacedAt(calls, p, slots, rand(first + SlotsBelow(slots, p)))
  }

  lemma PlaceCall(calls: seq<Call>, call: Call, slots: set<int>, rand: Stream, first: nat)
    requires Placed(calls, slots, rand, first)
    requires PlacedAt(calls + [call], |calls|, slots, rand(first + SlotsBelow(slots, |calls|)))
    ensures Placed(calls + [call], slots, rand, first)
  {
    var more := calls + [call];
    forall p | 0 <= p < |calls| ensures PlacedAt(more, p, slots, rand(first + SlotsBelow(slots, p))) {
      var u := rand(first + SlotsBelow(slots, p));
      assert PlacedAt(calls, p, slots, u);
      if p in slots {
        var gap :| AsksAgain(calls, p, gap, u);
        assert AsksAgain(more, p, gap, u);
      }
    }
  }

  lemma PlaceSighting(calls: seq<Call>, query: int, slots: set<int>, rand: Stream, first: nat)
    requires Placed(calls, slots, rand, first) && |calls| !in slots
    ensures Placed(calls + [Call(query, false)], slots, rand, first)
  {
    PlaceCall(calls, Call(query, false), slots, rand, first);
  }

  lemma PlaceRepeat(calls: seq<Call>, gap: nat, reach: nat, slots: set<int>, rand: Stream, first: nat, k: nat)
    requires Placed(calls, slots, rand, first) && |calls| in slots && k == first + SlotsBelow(slots, |calls|)
    requires reach == if MAX_REPEAT_GAP < |calls| then MAX_REPEAT_GAP else |calls|
    requires 0 < gap <= reach && gap == 1 + Draw(rand, k, reach)
    ensures Placed(calls + [Again(calls, gap)], slots, rand, first)
  {
    var more := calls + [Again(calls, gap)];
    DrawIsShare(rand, k, reach, gap - 1);
    assert more[|calls| - gap] == calls[|calls| - gap];
    assert AsksAgain(more, |calls|, gap, rand(k));
    PlaceCall(calls, Again(calls, gap), slots, rand, first);
  }

  /** The stream's repeats stand at the positions that the first draws after the shuffle hit, as many draws as were
      needed, and look back as the draws after those say. */
  ghost predicate RepeatsDrawn(calls: seq<Call>, distinct: nat, rand: Stream, limit: nat)
    requires distinct > 0
  {
    exists count: nat :: count <= limit && RepeatsDrawnBy(calls, distinct, rand, count)
  }

  ghost predicate RepeatsDrawnBy(calls: seq<Call>, distinct: nat, rand: Stream, count: nat)
    requires distinct > 0
  {
    && |calls| >= distinct
    && JustEnough(|calls|, rand, distinct - 1, count, |calls| - distinct)
    && Placed(calls, Picked(|calls|, rand, distinct - 1, count), rand, distinct - 1 + count)
  }

  /** `distinct` first sightings in shuffled order and the repeats the rate asks for, each looking back. */
  ghost predicate IsStream(calls: seq<Call>, distinct: nat, rate: real, rand: Stream)
    requires distinct > 0 && 0.0 <= rate < 1.0
  {
    && FirstSightings(calls) == Shuffled(Indices(distinct), distinct - 1, rand, 0)
    && |calls| == distinct + Repeats(distinct, rate)
    && RepeatsLookBack(calls)
  }

  lemma OneMoreCall(calls: seq<Call>, call: Call)
    requires RepeatsLookBack(calls)
    requires call.repeat ==> LooksBack(calls + [call], |calls|)
    ensures RepeatsLookBack(calls + [call])
    ensures FirstSightings(calls + [call]) == FirstSightings(calls) + (if call.repeat then [] else [call.query])
  {
    var more := calls + [call];
    assert more[..|more| - 1] == calls;
    forall p | 0 <= p < |more| && more[p].repeat ensures LooksBack(more, p) {
      if p < |calls| {
        assert LooksBack(calls, p);
        var before :| 0 <= before < p <= before + MAX_REPEAT_GAP && calls[before].query == calls[p].query;
        assert more[before].query == more[p].query;
      }
    }
  }

  /** The repeat that reaches `gap` calls back. */
  function Again(calls: seq<Call>, gap: nat): Call
    requires 0 < gap <= |calls|
  {
    Call(calls[|calls| - gap].query, true)
  }

  lemma AgainLooksBack(calls: seq<Call>, gap: nat)
    requires 0 < gap <= |calls| && gap <= MAX_REPEAT_GAP
    ensures LooksBack(calls + [Again(calls, gap)], |calls|)
  {
    var more := calls + [Again(calls, gap)];
    var before := |calls| - gap;
    assert more[before].query == more[|calls|].query;
  }

  lemma RoomForSighting(slots: set<int>, p: nat, total: nat)
    requires p < total && p !in slots
    ensures p - SlotsBelow(slots, p) < total - SlotsBelow(slots, total)
  {
    SlotsBelowGrows(slots, p + 1, total);
  }

  /** The first `p` calls: repeats in the slots, first sightings in order elsewhere. */
  ghost predicate Filled(calls: seq<Call>, order: seq<int>, slots: set<int>, p: nat, next: nat) {
    && |calls| == p
    && next == p - SlotsBelow(slots, p) <= |order|
    && FirstSightings(calls) == order[..next]
    && RepeatsLookBack(calls)
  }

  lemma FillSlot(calls: seq<Call>, order: seq<int>, slots: set<int>, p: nat, next: nat, gap: nat)
    requires Filled(calls, order, slots, p, next) && p in slots && 0 < gap <= p && gap <= MAX_REPEAT_GAP
    ensures Filled(calls + [Again(calls, gap)], order, slots, p + 1, next)
  {
    AgainLooksBack(calls, gap);
    OneMoreCall(calls, Again(calls, gap));
  }

  lemma FillSighting(calls: seq<Call>, order: seq<int>, slots: set<int>, p: nat, next: nat)
    requires Filled(calls, order, slots, p, next) && p !in slots && next < |order|
    ensures Filled(calls + [Call(order[next], false)], order, slots, p + 1, next + 1)
  {
    OneMoreCall(calls, Call(order[next], false));
    assert order[..next + 1] == order[..next] + [order[next]];
  }

  /** The call in a slot, which the draw decides. */
  method AskAgain(calls: seq<Call>, rand: Stream, k: nat, ghost order: seq<int>, ghost slots: set<int>,
                  ghost next: nat, ghost first: nat)
    returns (more: seq<Call>)
    requires InUnit(rand) && 0 < |calls| && |calls| in slots && k == first + SlotsBelow(slots, |calls|)
    requires Filled(calls, order, slots, |calls|, next) && Placed(calls, slots, rand, first)
    ensures Filled(more, order, slots, |calls| + 1, next) && Placed(more, slots, rand, first)
  {
    var p := |calls|;
    var reach := if MAX_REPEAT_GAP < p then MAX_REPEAT_GAP else p;
    DrawInRange(rand, k, reach);
    var gap := 1 + Draw(rand, k, reach);
    FillSlot(calls, order, slots, p, next, gap);
    PlaceRepeat(calls, gap, reach, slots, rand, first, k);
    more := calls + [Call(calls[p - gap].query, true)];
  }

  method FillCalls(order: seq<int>, slots: set<int>, total: nat, rand: Stream, first: nat) returns (calls: seq<Call>)
    requires InUnit(rand) && total == |order| + |slots|
    requires forall x :: x in slots ==> 0 < x < total
    ensures |calls| == total && FirstSightings(calls) == order && RepeatsLookBack(calls)
    ensures Placed(calls, slots, rand, first)
  {
    AllSlots(slots, total);
    calls := [];
    var next, draws := 0, first;
    for p := 0 to total
      invariant Filled(calls, order, slots, p, next)
      invariant Placed(calls, slots, rand, first) && draws == first + SlotsBelow(slots, p)
    {
      if p in slots {
        calls := AskAgain(calls, rand, draws, order, slots, next, first);
        draws := draws + 1;
      } else {
        RoomForSighting(slots, p, total);
        FillSighting(calls, order, slots, p, next);
        PlaceSighting(calls, order[next], slots, rand, first);
        calls := calls + [Call(order[next], false)];
        next := next + 1;
      }
    }
    assert order[..next] == order;
  }

  /** The draws that follow the shuffle hit enough positions. */
  predicate EnoughDraws(distinct: nat, rate: real, rand: Stream, limit: nat)
    requires distinct >= 1 && 0.0 <= rate < 1.0
  {
    var repeats := Repeats(distinct, rate);
    |Picked(distinct + repeats, rand, distinct - 1, limit)| >= repeats
  }

  method BuildStream(distinct: int, rate: real, rand: Stream, limit: nat) returns (r: Built)
    requires InUnit(rand)
    ensures r.BadDistinct? <==> distinct < 1
    ensures r.BadRate? <==> distinct >= 1 && !(0.0 <= rate < 1.0)
    ensures r.StillDrawing? <==> distinct >= 1 && 0.0 <= rate < 1.0 && !EnoughDraws(distinct, rate, rand, limit)
    ensures r.Calls? ==> IsStream(r.calls, distinct, rate, rand)
    ensures r.Calls? ==> RepeatsDrawn(r.calls, distinct, rand, limit)
  {
    if distinct < 1 {
      return BadDistinct;
    }
    if !(0.0 <= rate < 1.0) {
      return BadRate;
    }
    var order, draws := ShuffledQueries(distinct, rand);
    var repeats := Repeats(distinct, rate);
    var total := distinct + repeats;
    var slots;
    slots, draws := DrawSlots(total, repeats, rand, draws, limit);
    if |slots| < repeats {
      return StillDrawing;
    }
    assert JustEnough(total, rand, distinct - 1, draws - (distinct - 1), repeats);
    var calls := FillCalls(order, slots, total, rand, draws);
    assert RepeatsDrawnBy(calls, distinct, rand, draws - (distinct - 1));
    r := Calls(calls);
  }

  // ---- what a reader of the stream may rely on ----

  lemma {:induction false} PrefixSightings(calls: seq<Call>, p: nat)
    requires p <= |calls|
    ensures FirstSightings(calls[..p]) <= FirstSightings(calls)
  {
    if p < |calls| {
      PrefixSightings(calls[..|calls| - 1], p);
      assert calls[..|calls| - 1][..p] == calls[..p];
    } else {
      assert calls[..p] == calls;
    }
  }

  lemma SightingAt(calls: seq<Call>, p: nat)
    requires p < |calls| && !calls[p].repeat
    ensures FirstSightings(calls[..p]) + [calls[p].query] <= FirstSightings(calls)
  {
    var upto := calls[..p + 1];
    assert upto[..|upto| - 1] == calls[..p];
    assert FirstSightings(upto) == FirstSightings(calls[..p]) + [calls[p].query];
    PrefixSightings(calls, p + 1);
  }

  /** Whatever has been asked was once asked for the first time. */
  lemma {:induction false} SightedBefore(calls: seq<Call>, p: nat, i: nat)
    requires RepeatsLookBack(calls) && i < p <= |calls|
    ensures calls[i].query in FirstSightings(calls[..p])
    decreases i
  {
    if calls[i].repeat {
      assert LooksBack(calls, i);
      var before :| 0 <= before < i <= before + MAX_REPEAT_GAP && calls[before].query == calls[i].query;
      SightedBefore(calls, p, before);
    } else {
      SightingAt(calls[..p], i);
      LastOfPrefix(FirstSightings(calls[..p][..i]), calls[i].query, FirstSightings(calls[..p]));
    }
  }

  lemma LastOfPrefix(s: seq<int>, x: int, all: seq<int>)
    requires s + [x] <= all
    ensures x in all && (NoDuplicates(all) ==> x !in s)
  {
    assert (s + [x])[|s|] == x == all[|s|];
    assert forall k :: 0 <= k < |s| ==> s[k] == (s + [x])[k] == all[k];
  }

  /** A first sighting asks something that no earlier call asked. */
  lemma FirstSightingIsNew(calls: seq<Call>, p: nat, i: nat)
    requires RepeatsLookBack(calls) && NoDuplicates(FirstSightings(calls))
    requires i < p < |calls| && !calls[p].repeat
    ensures calls[i].query != calls[p].query
  {
    SightedBefore(calls, p, i);
    SightingAt(calls, p);
    LastOfPrefix(FirstSightings(calls[..p]), calls[p].query, FirstSightings(calls));
  }

  /** The queries are sighted in an order of `0..distinct`: none is left out and none sighted twice. */
  lemma SightingsAreAnOrder(calls: seq<Call>, distinct: nat, rate: real, rand: Stream)
    requires distinct > 0 && 0.0 <= rate < 1.0 && IsStream(calls, distinct, rate, rand)
    ensures IsOrder(FirstSightings(calls), distinct)
  {
    ShuffledIsOrder(Indices(distinct), distinct - 1, rand, 0, distinct);
  }
}
