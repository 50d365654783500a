/** `loadUndirectedGraph` and `reachableWithin`: breadth-first search against shortest hop distance. */
module Reachability {
  import opened Basics
  import opened Sorting

  type Graph = map<string, set<string>>

  datatype EdgeRow = EdgeRow(source: string, target: string)

  function Neighbors(g: Graph, v: string): set<string> {
    if v in g then g[v] else {}
  }

  // ---- the graph ----

  predicate Joins(row: EdgeRow, u: string, v: string) {
    var s, t := NormalizeSeparators(row.source), NormalizeSeparators(row.target);
    u != v && ((s == u && t == v) || (s == v && t == u))
  }

  function AddEdge(adj: Graph, u: string, v: string): Graph {
    adj[u := Neighbors(adj, u) + {v}]
  }

  ghost predicate IsEdge(rows: seq<EdgeRow>, u: string, v: string) {
    exists i :: 0 <= i < |rows| && Joins(rows[i], u, v)
  }

  /** Two notes are neighbours exactly when some row joins them, in either direction. */
  method LoadUndirectedGraph(rows: seq<EdgeRow>) returns (adj: Graph)
    ensures forall u, v :: v in Neighbors(adj, u) <==> IsEdge(rows, u, v)
    ensures Undirected(adj)
  {
    adj := map[];
    for i := 0 to |rows|
      invariant forall u, v :: v in Neighbors(adj, u) <==> IsEdge(rows[..i], u, v)
    {
      var s, t := NormalizeSeparators(rows[i].source), NormalizeSeparators(rows[i].target);
      assert rows[..i + 1] == rows[..i] + [rows[i]];
      forall u, v ensures IsEdge(rows[..i + 1], u, v) <==> IsEdge(rows[..i], u, v) || Joins(rows[i], u, v) {
        if IsEdge(rows[..i], u, v) {
          var k :| 0 <= k < i && Joins(rows[..i][k], u, v);
          assert Joins(rows[..i + 1][k], u, v);
        }
        if Joins(rows[i], u, v) {
          assert Joins(rows[..i + 1][i], u, v);
        }
        if IsEdge(rows[..i + 1], u, v) {
          var k :| 0 <= k < i + 1 && Joins(rows[..i + 1][k], u, v);
          assert k < i ==> Joins(rows[..i][k], u, v);
        }
      }
      if s == t {
        continue;
      }
      ghost var adj0 := adj;
      adj := AddEdge(adj, s, t);
      adj := AddEdge(adj, t, s);
      forall u, v ensures v in Neighbors(adj, u) <==> v in Neighbors(adj0, u) || Joins(rows[i], u, v) {
      }
    }
    assert rows[..|rows|] == rows;
  }

  ghost predicate Undirected(g: Graph) {
    forall u, v :: v in Neighbors(g, u) <==> u in Neighbors(g, v)
  }

  // ---- distance ----

  /** `p` is a walk: each node a neighbour of the one before. */
  ghost predicate IsWalk(g: Graph, p: seq<string>) {
    p != [] && forall i :: 0 <= i < |p| - 1 ==> p[i + 1] in Neighbors(g, p[i])
  }

  ghost predicate WalkOf(g: Graph, p: seq<string>, from: set<string>, v: string, n: nat) {
    IsWalk(g, p) && |p| == n + 1 && p[0] in from && p[n] == v
  }

  /** Some walk of `n` hops leads from `from` to `v`. */
  ghost predicate Within(g: Graph, from: set<string>, v: string, n: nat) {
    exists p :: WalkOf(g, p, from, v, n)
  }

  /** `n` is the least number of hops from `from` to `v`. */
  ghost predicate Shortest(g: Graph, from: set<string>, v: string, n: nat) {
    Within(g, from, v, n) && forall m: nat :: Within(g, from, v, m) ==> n <= m
  }

  lemma Extend(g: Graph, from: set<string>, u: string, v: string, n: nat)
    requires Within(g, from, u, n) && v in Neighbors(g, u)
    ensures Within(g, from, v, n + 1)
  {
    var p :| WalkOf(g, p, from, u, n);
    assert WalkOf(g, p + [v], from, v, n + 1);
  }

  lemma Retract(g: Graph, from: set<string>, v: string, n: nat) returns (u: string)
    requires Within(g, from, v, n + 1)
    ensures Within(g, from, u, n) && v in Neighbors(g, u)
  {
    var p :| WalkOf(g, p, from, v, n + 1);
    u := p[n];
    assert v == p[n + 1];
    assert WalkOf(g, p[..n + 1], from, u, n);
  }

  // ---- the search ----

  function Normed(paths: seq<string>): set<string> {
    set p | p in paths :: NormalizeSeparators(p)
  }

  /** `dist` agrees with the distances of the nodes found so far. */
  ghost predicate Sound(g: Graph, from: set<string>, dist: map<string, nat>) {
    forall v :: v in dist ==> Within(g, from, v, dist[v])
  }

  /** The neighbours of `v` are known, and none is late. */
  ghost predicate Settled(g: Graph, dist: map<string, nat>, v: string) {
    v in dist && forall w :: w in Neighbors(g, v) ==> w in dist && dist[w] <= dist[v] + 1
  }

  /** The queue lists the nodes found, nearest first; from `head` on at most two distances remain. */
  ghost predicate QueueOrder(queue: seq<string>, dist: map<string, nat>, head: nat) {
    && (forall v :: v in queue <==> v in dist)
    && (forall i, j :: 0 <= i <= j < |queue| ==> dist[queue[i]] <= dist[queue[j]])
    && (head < |queue| ==> forall i :: 0 <= i < |queue| ==> dist[queue[i]] <= dist[queue[head]] + 1)
  }

  ghost predicate Extends(dist: map<string, nat>, dist': map<string, nat>) {
    forall v :: v in dist ==> v in dist' && dist'[v] == dist[v]
  }

  /** When everything found is settled, what was found is exactly what is reachable, at its distance. */
  lemma {:induction false} Closed(g: Graph, from: set<string>, dist: map<string, nat>, v: string, n: nat)
    requires forall s :: s in from ==> s in dist && dist[s] == 0
    requires forall u :: u in dist ==> Settled(g, dist, u)
    requires Within(g, from, v, n)
    ensures v in dist && dist[v] <= n
    decreases n
  {
    if n == 0 {
      var p :| WalkOf(g, p, from, v, 0);
    } else {
      var u := Retract(g, from, v, n - 1);
      Closed(g, from, dist, u, n - 1);
      assert Settled(g, dist, u);
    }
  }

  function AllNodes(g: Graph, from: set<string>): set<string> {
    from + g.Keys + (set u, v | u in g && v in g[u] :: v)
  }

  /** Appending a new node that is no nearer than the others. */
  lemma Enqueue(queue: seq<string>, dist: map<string, nat>, v: string, d: nat)
    requires QueueOrder(queue, dist, |queue|) && v !in dist
    requires forall u :: u in dist ==> dist[u] <= d
    ensures QueueOrder(queue + [v], dist[v := d], |queue| + 1)
  {
    var queue', dist' := queue + [v], dist[v := d];
    forall i, j | 0 <= i <= j < |queue'| ensures dist'[queue'[i]] <= dist'[queue'[j]] {
      assert forall k :: 0 <= k < |queue| ==> queue[k] in queue && queue'[k] == queue[k];
    }
  }

  lemma FrontLayer(queue: seq<string>, dist: map<string, nat>, head: nat)
    requires QueueOrder(queue, dist, head) && head < |queue|
    ensures queue[head] in dist && forall v :: v in dist ==> dist[v] <= dist[queue[head]] + 1
    ensures QueueOrder(queue, dist, |queue|)
  {
    assert queue[head] in queue;
    forall v | v in dist ensures dist[v] <= dist[queue[head]] + 1 {
      var i :| 0 <= i < |queue| && queue[i] == v;
    }
  }

  lemma LastLayer(queue: seq<string>, dist: map<string, nat>, head: nat, d: nat)
    requires QueueOrder(queue, dist, |queue|) && head < |queue| && queue[head] in dist && dist[queue[head]] == d
    requires forall v :: v in dist ==> dist[v] <= d + 1
    ensures QueueOrder(queue, dist, head + 1)
  {
    if head + 1 < |queue| {
      assert dist[queue[head]] <= dist[queue[head + 1]];
      assert forall i :: 0 <= i < |queue| ==> queue[i] in queue;
    }
  }

  /** How far the inner loop has come: the neighbours outside `rest` are known. */
  ghost predicate Visiting(nbrs: set<string>, rest: set<string>, dist0: map<string, nat>, dist: map<string, nat>,
                           queue0: seq<string>, queue: seq<string>, d: nat) {
    && rest <= nbrs
    && Extends(dist0, dist) && dist.Keys == dist0.Keys + (nbrs - rest)
    && (forall v :: v in dist && v !in dist0 ==> dist[v] == d + 1)
    && (forall v :: v in dist ==> dist[v] <= d + 1)
    && queue0 <= queue
    && (dist.Keys == dist0.Keys ==> queue == queue0)
  }

  lemma VisitKnown(nbrs: set<string>, rest: set<string>, dist0: map<string, nat>, dist: map<string, nat>,
                   queue0: seq<string>, queue: seq<string>, d: nat, nb: string)
    requires Visiting(nbrs, rest, dist0, dist, queue0, queue, d) && nb in rest && nb in dist
    ensures Visiting(nbrs, rest - {nb}, dist0, dist, queue0, queue, d)
  {
    assert nbrs - (rest - {nb}) == (nbrs - rest) + {nb};
  }

  lemma VisitNew(nbrs: set<string>, rest: set<string>, dist0: map<string, nat>, dist: map<string, nat>,
                 queue0: seq<string>, queue: seq<string>, d: nat, nb: string)
    requires Visiting(nbrs, rest, dist0, dist, queue0, queue, d) && nb in rest && nb !in dist
    ensures Visiting(nbrs, rest - {nb}, dist0, dist[nb := d + 1], queue0, queue + [nb], d)
  {
    var dist', queue' := dist[nb := d + 1], queue + [nb];
    assert nbrs - (rest - {nb}) == (nbrs - rest) + {nb};
    assert dist'.Keys == dist.Keys + {nb};
    assert queue0 <= queue';
  }

  /** The inner loop: what `node` adds to `dist` and to the queue. The set is walked in any order. */
  method Visit(g: Graph, node: string, dist0: map<string, nat>, queue0: seq<string>, head: nat)
    returns (dist: map<string, nat>, queue: seq<string>)
    requires QueueOrder(queue0, dist0, head) && head < |queue0| && queue0[head] == node && node in dist0
    ensures Visiting(Neighbors(g, node), {}, dist0, dist, queue0, queue, dist0[node])
    ensures QueueOrder(queue, dist, head + 1)
  {
    dist, queue := dist0, queue0;
    var d := dist0[node];
    FrontLayer(queue0, dist0, head);
    var nbrs := Neighbors(g, node);
    var rest := nbrs;
    while rest != {}
      invariant Visiting(nbrs, rest, dist0, dist, queue0, queue, d) && QueueOrder(queue, dist, |queue|)
      decreases rest
    {
      var nb :| nb in rest;
      if nb !in dist {
        VisitNew(nbrs, rest, dist0, dist, queue0, queue, d, nb);
        Enqueue(queue, dist, nb, d + 1);
        dist := dist[nb := d + 1];
        queue := queue + [nb];
      } else {
        VisitKnown(nbrs, rest, dist0, dist, queue0, queue, d, nb);
      }
      rest := rest - {nb};
    }
    LastLayer(queue, dist, head, d);
  }

  /** The seeds, each at distance 0 and queued once. */
  method Seed(seeds: seq<string>) returns (dist: map<string, nat>, queue: seq<string>)
    ensures dist.Keys == Normed(seeds) && forall v :: v in dist ==> dist[v] == 0
    ensures QueueOrder(queue, dist, |queue|)
  {
    dist, queue := map[], [];
    for i := 0 to |seeds|
      invariant dist.Keys == Normed(seeds[..i]) && forall v :: v in dist ==> dist[v] == 0
      invariant QueueOrder(queue, dist, |queue|)
    {
      var s := NormalizeSeparators(seeds[i]);
      assert seeds[..i + 1] == seeds[..i] + [seeds[i]];
      assert Normed(seeds[..i + 1]) == Normed(seeds[..i]) + {s};
      if s !in dist {
        Enqueue(queue, dist, s, 0);
        dist := dist[s := 0];
        queue := queue + [s];
      }
    }
    assert seeds[..|seeds|] == seeds;
  }

  lemma SeedsFirst(queue: seq<string>, dist: map<string, nat>)
    requires QueueOrder(queue, dist, |queue|) && forall v :: v in dist ==> dist[v] == 0
    ensures QueueOrder(queue, dist, 0)
  {
    assert forall i :: 0 <= i < |queue| ==> queue[i] in queue;
  }

  /** The search so far: distances found are attained, the seeds are in, and everything taken from the
      queue is settled. */
  ghost predicate Searching(g: Graph, from: set<string>, dist: map<string, nat>, queue: seq<string>, head: nat) {
    && head <= |queue|
    && dist.Keys <= AllNodes(g, from)
    && (forall s :: s in from ==> s in dist && dist[s] == 0)
    && Sound(g, from, dist)
    && (forall i :: 0 <= i < head ==> Settled(g, dist, queue[i]))
  }

  lemma SearchStarts(g: Graph, from: set<string>, dist: map<string, nat>, queue: seq<string>)
    requires dist.Keys == from && forall v :: v in dist ==> dist[v] == 0
    ensures Searching(g, from, dist, queue, 0)
  {
    forall v | v in dist ensures Within(g, from, v, dist[v]) {
      assert WalkOf(g, [v], from, v, 0);
    }
  }

  lemma SearchGoesOn(g: Graph, from: set<string>, dist: map<string, nat>, queue: seq<string>, head: nat,
                     dist': map<string, nat>, queue': seq<string>)
    requires Searching(g, from, dist, queue, head) && head < |queue| && queue[head] in dist
    requires Visiting(Neighbors(g, queue[head]), {}, dist, dist', queue, queue', dist[queue[head]])
    ensures Searching(g, from, dist', queue', head + 1)
    ensures dist'.Keys == dist.Keys ==> queue' == queue
    ensures dist.Keys <= dist'.Keys
  {
    FoundGoesOn(g, from, dist, queue[head], dist');
    SettledNow(g, dist, queue[head], dist');
    forall i | 0 <= i < head + 1 ensures Settled(g, dist', queue'[i]) {
      assert queue'[i] == queue[i];
      if i < head {
        StaysSettled(g, dist, queue[i], dist');
      }
    }
  }

  lemma StaysSettled(g: Graph, dist: map<string, nat>, v: string, dist': map<string, nat>)
    requires Settled(g, dist, v) && Extends(dist, dist')
    ensures Settled(g, dist', v)
  {
  }

  lemma SettledNow(g: Graph, dist: map<string, nat>, node: string, dist': map<string, nat>)
    requires node in dist && Extends(dist, dist') && dist'.Keys == dist.Keys + Neighbors(g, node)
    requires forall v :: v in dist' ==> dist'[v] <= dist[node] + 1
    ensures Settled(g, dist', node)
  {
  }

  lemma FoundGoesOn(g: Graph, from: set<string>, dist: map<string, nat>, node: string, dist': map<string, nat>)
    requires Sound(g, from, dist) && dist.Keys <= AllNodes(g, from) && node in dist && Extends(dist, dist')
    requires dist'.Keys == dist.Keys + Neighbors(g, node)
    requires forall v :: v in dist' && v !in dist ==> dist'[v] == dist[node] + 1
    ensures Sound(g, from, dist') && dist'.Keys <= AllNodes(g, from)
  {
    forall v | v in dist' ensures Within(g, from, v, dist'[v]) && v in AllNodes(g, from) {
      if v !in dist {
        Extend(g, from, node, v, dist[node]);
        assert node in g && v in g[node];
      }
    }
  }

  lemma SearchDone(g: Graph, from: set<string>, dist: map<string, nat>, queue: seq<string>)
    requires Searching(g, from, dist, queue, |queue|) && forall v :: v in dist ==> v in queue
    ensures forall v :: v in dist ==> Shortest(g, from, v, dist[v])
    ensures forall v, n: nat :: Within(g, from, v, n) ==> v in dist
  {
    forall v | v in dist ensures Settled(g, dist, v) {
      var i :| 0 <= i < |queue| && queue[i] == v;
    }
    forall v, n: nat | Within(g, from, v, n) ensures v in dist && dist[v] <= n {
      Closed(g, from, dist, v, n);
    }
  }

  lemma QueuedIsFound(queue: seq<string>, dist: map<string, nat>, head: nat)
    requires QueueOrder(queue, dist, head) && head < |queue|
    ensures queue[head] in dist
  {
    assert queue[head] in queue;
  }

  /** One turn of the search: the node at the head of the queue is settled. */
  method Step(g: Graph, dist0: map<string, nat>, queue0: seq<string>, head: nat, ghost from: set<string>)
    returns (dist: map<string, nat>, queue: seq<string>)
    requires Searching(g, from, dist0, queue0, head) && QueueOrder(queue0, dist0, head) && head < |queue0|
    ensures Searching(g, from, dist, queue, head + 1) && QueueOrder(queue, dist, head + 1)
    ensures dist0.Keys <= dist.Keys && (dist.Keys == dist0.Keys ==> queue == queue0)
  {
    QueuedIsFound(queue0, dist0, head);
    dist, queue := Visit(g, queue0[head], dist0, queue0, head);
    SearchGoesOn(g, from, dist0, queue0, head, dist, queue);
  }

  /** The `dist` map of the search: every node's shortest hop distance, present exactly if reachable. */
  method Distances(g: Graph, seeds: seq<string>) returns (dist: map<string, nat>)
    ensures forall v :: v in dist ==> Shortest(g, Normed(seeds), v, dist[v])
    ensures forall v, n: nat :: Within(g, Normed(seeds), v, n) ==> v in dist
  {
    ghost var from := Normed(seeds);
    var queue;
    dist, queue := Seed(seeds);
    SearchStarts(g, from, dist, queue);
    SeedsFirst(queue, dist);
    var head := 0;
    while head < |queue|
      invariant Searching(g, from, dist, queue, head) && QueueOrder(queue, dist, head)
      decreases AllNodes(g, from) - dist.Keys, |queue| - head
    {
      dist, queue := Step(g, dist, queue, head, from);
      head := head + 1;
    }
    SearchDone(g, from, dist, queue);
  }

  // ---- the verdict ----

  datatype ReachabilityResult = ReachabilityResult(
    reachable: bool,
    hops: Option<nat>,
    reachedTargets: seq<string>,
    reachableAtAnyDistance: seq<string>)

  datatype Hit = Hit(path: string, hops: nat)

  predicate Nearer(a: Hit, b: Hit) { a.hops <= b.hops }

  /** Some target is at hop distance `n`. */
  ghost predicate TargetAt(g: Graph, from: set<string>, targets: set<string>, n: nat) {
    exists t :: t in targets && Shortest(g, from, t, n)
  }

  /** What `reachable` and `hops` mean: the nearest target, if it is near enough. */
  ghost predicate Verdict(g: Graph, from: set<string>, targets: set<string>, maxHops: int, hops: Option<nat>) {
    match hops
    case Some(n) =>
      && n <= maxHops && TargetAt(g, from, targets, n)
      && forall m: nat :: TargetAt(g, from, targets, m) ==> n <= m
    case None => forall m: nat :: TargetAt(g, from, targets, m) ==> m > maxHops
  }

  /** Path `a` is listed in `paths`, and before the first time `b` is, if it is at all. */
  ghost predicate Earlier(paths: seq<string>, a: string, b: string) {
    exists i :: 0 <= i < |paths| && NormalizeSeparators(paths[i]) == a && b !in Normed(paths[..i + 1])
  }

  /** In the order in which `paths` first lists them, so each path once. */
  ghost predicate InOrder(paths: seq<string>, ts: seq<string>) {
    forall i, j :: 0 <= i < j < |ts| ==> Earlier(paths, ts[i], ts[j])
  }

  /** Nearest first, and in the order of `paths` where equally near. */
  ghost predicate NearestFirst(g: Graph, from: set<string>, paths: seq<string>, ts: seq<string>) {
    forall i, j, n: nat, m: nat {:trigger Shortest(g, from, ts[i], n), Shortest(g, from, ts[j], m)} ::
      0 <= i < j < |ts| && Shortest(g, from, ts[i], n) && Shortest(g, from, ts[j], m)
      ==> n < m || (n == m && Earlier(paths, ts[i], ts[j]))
  }

  lemma EarlierDiffers(paths: seq<string>, a: string, b: string)
    requires Earlier(paths, a, b)
    ensures a != b
  {
    var k :| 0 <= k < |paths| && NormalizeSeparators(paths[k]) == a && b !in Normed(paths[..k + 1]);
    assert paths[..k + 1][k] == paths[k];
  }

  lemma OnceEach(paths: seq<string>, ts: seq<string>)
    requires InOrder(paths, ts)
    ensures NoDuplicates(ts)
  {
    forall i, j | 0 <= i < j < |ts| ensures ts[i] != ts[j] {
      EarlierDiffers(paths, ts[i], ts[j]);
    }
  }

  lemma InOrderAppend(paths: seq<string>, ts: seq<string>, t: string)
    requires InOrder(paths, ts) && forall s :: s in ts ==> Earlier(paths, s, t)
    ensures InOrder(paths, ts + [t])
  {
  }

  /** The target set in insertion order. */
  function Distinct(paths: seq<string>): (r: seq<string>)
    ensures forall p :: p in r <==> p in Normed(paths)
  {
    if paths == [] then []
    else
      var most, last := Distinct(paths[..|paths| - 1]), NormalizeSeparators(paths[|paths| - 1]);
      assert paths == paths[..|paths| - 1] + [paths[|paths| - 1]];
      if last in most then most else most + [last]
  }

  lemma EarlierInPrefix(paths: seq<string>, n: nat, a: string, b: string)
    requires n <= |paths| && Earlier(paths[..n], a, b)
    ensures Earlier(paths, a, b)
  {
    var i :| 0 <= i < n && NormalizeSeparators(paths[..n][i]) == a && b !in Normed(paths[..n][..i + 1]);
    assert paths[..n][..i + 1] == paths[..i + 1];
    assert NormalizeSeparators(paths[i]) == a;
  }

  lemma {:induction false} DistinctInOrder(paths: seq<string>)
    ensures InOrder(paths, Distinct(paths))
  {
    if paths != [] {
      var init, last := paths[..|paths| - 1], NormalizeSeparators(paths[|paths| - 1]);
      DistinctInOrder(init);
      forall i, j | 0 <= i < j < |Distinct(init)| ensures Earlier(paths, Distinct(init)[i], Distinct(init)[j]) {
        EarlierInPrefix(paths, |paths| - 1, Distinct(init)[i], Distinct(init)[j]);
      }
      forall t | t in Distinct(init) && last !in Distinct(init) ensures Earlier(paths, t, last) {
        var i :| 0 <= i < |init| && NormalizeSeparators(init[i]) == t;
        assert NormalizeSeparators(paths[i]) == t;
        assert forall p :: p in paths[..i + 1] ==> p in init;
      }
    }
  }

  ghost function ListedEarlier(paths: seq<string>): (Hit, Hit) -> bool {
    (a: Hit, b: Hit) => Earlier(paths, a.path, b.path)
  }

  /** The targets found, and those within the horizon with their distance. */
  method ReadOff(dist: map<string, nat>, targetSet: seq<string>, maxHops: int, ghost targets: seq<string>)
    returns (within: seq<Hit>, connected: seq<string>)
    requires InOrder(targets, targetSet)
    ensures forall h :: h in within <==> h.path in targetSet && h.path in dist && dist[h.path] == h.hops <= maxHops
    ensures forall t :: t in connected <==> t in targetSet && t in dist
    ensures Pairwise(within, ListedEarlier(targets)) && InOrder(targets, connected)
  {
    within, connected := [], [];
    for i := 0 to |targetSet|
      invariant forall h :: h in within <==>
        h.path in targetSet[..i] && h.path in dist && dist[h.path] == h.hops <= maxHops
      invariant forall t :: t in connected <==> t in targetSet[..i] && t in dist
      invariant Pairwise(within, ListedEarlier(targets)) && InOrder(targets, connected)
    {
      var t := targetSet[i];
      assert targetSet[..i + 1] == targetSet[..i] + [t];
      assert forall s :: s in targetSet[..i] ==> Earlier(targets, s, t);
      if t !in dist {
        continue;
      }
      InOrderAppend(targets, connected, t);
      connected := connected + [t];
      if dist[t] <= maxHops {
        within := within + [Hit(t, dist[t])];
      }
    }
    assert targetSet[..|targetSet|] == targetSet;
  }

  method ReachableWithin(g: Graph, seeds: seq<string>, targets: seq<string>, maxHops: int)
    returns (r: ReachabilityResult)
    ensures r.reachable == r.hops.Some?
    ensures Verdict(g, Normed(seeds), Normed(targets), maxHops, r.hops)
    ensures forall t :: t in r.reachedTargets <==> t in Normed(targets) && Horizon(g, Normed(seeds), t, maxHops)
    ensures forall t :: t in r.reachableAtAnyDistance <==> t in Normed(targets) && Connected(g, Normed(seeds), t)
    ensures NearestFirst(g, Normed(seeds), targets, r.reachedTargets) && NoDuplicates(r.reachedTargets)
    ensures InOrder(targets, r.reachableAtAnyDistance) && NoDuplicates(r.reachableAtAnyDistance)
  {
    ghost var from := Normed(seeds);
    var dist := Distances(g, seeds);
    var targetSet := Distinct(targets);
    DistinctInOrder(targets);
    var within, connected := ReadOff(dist, targetSet, maxHops, targets);
    var sorted := Sort(within, Nearer);
    SortSorts(within, Nearer);
    SortStable(within, Nearer, ListedEarlier(targets));
    var reached := seq(|sorted|, i requires 0 <= i < |sorted| => sorted[i].path);
    r := ReachabilityResult(|sorted| > 0, if |sorted| > 0 then Some(sorted[0].hops) else None, reached, connected);
    forall h ensures h in sorted <==> h in within {
      SortMembers(within, Nearer, h);
    }
    ReadOffMeans(g, from, dist, Normed(targets), maxHops, sorted, reached, connected);
    ReadOffOrder(g, from, dist, targets, sorted, reached);
    OnceEach(targets, connected);
  }

  ghost predicate Connected(g: Graph, from: set<string>, t: string) {
    exists n: nat :: Shortest(g, from, t, n)
  }

  ghost predicate Horizon(g: Graph, from: set<string>, t: string, maxHops: int) {
    exists n: nat :: n <= maxHops && Shortest(g, from, t, n)
  }

  lemma ReadOffMeans(g: Graph, from: set<string>, dist: map<string, nat>, targets: set<string>, maxHops: int,
                     sorted: seq<Hit>, reached: seq<string>, connected: seq<string>)
    requires forall v :: v in dist ==> Shortest(g, from, v, dist[v])
    requires forall v, n: nat :: Within(g, from, v, n) ==> v in dist
    requires forall h :: h in sorted <==> h.path in targets && h.path in dist && dist[h.path] == h.hops <= maxHops
    requires Sorted(sorted, Nearer)
    requires |reached| == |sorted| && forall i :: 0 <= i < |sorted| ==> reached[i] == sorted[i].path
    requires forall t :: t in connected <==> t in targets && t in dist
    ensures Verdict(g, from, targets, maxHops, if |sorted| > 0 then Some(sorted[0].hops) else None)
    ensures forall t :: t in reached <==> t in targets && Horizon(g, from, t, maxHops)
    ensures forall t :: t in connected <==> t in targets && Connected(g, from, t)
  {
    forall t, n: nat | Shortest(g, from, t, n) ensures t in dist && dist[t] == n {
    }
    forall i | 0 <= i < |sorted|
      ensures sorted[i].path in targets && Shortest(g, from, sorted[i].path, sorted[i].hops)
    {
      assert sorted[i] in sorted;
    }
    forall t | t in targets && Horizon(g, from, t, maxHops)
      ensures exists i :: 0 <= i < |sorted| && sorted[i] == Hit(t, dist[t])
    {
      assert Hit(t, dist[t]) in sorted;
    }
    forall t | t in targets && Horizon(g, from, t, maxHops) ensures t in reached {
      var i :| 0 <= i < |sorted| && sorted[i] == Hit(t, dist[t]);
      assert reached[i] == t;
    }
    forall t, m: nat | t in targets && Shortest(g, from, t, m) && m <= maxHops
      ensures |sorted| > 0 && sorted[0].hops <= m
    {
      assert Horizon(g, from, t, maxHops);
      var i :| 0 <= i < |sorted| && sorted[i] == Hit(t, dist[t]);
      assert i > 0 ==> Nearer(sorted[0], sorted[i]);
    }
  }

  lemma ReadOffOrder(g: Graph, from: set<string>, dist: map<string, nat>, targets: seq<string>, sorted: seq<Hit>,
                     reached: seq<string>)
    requires forall v :: v in dist ==> Shortest(g, from, v, dist[v])
    requires forall h :: h in sorted ==> h.path in dist && dist[h.path] == h.hops
    requires Sorted(sorted, Nearer) && StableFor(sorted, Nearer, ListedEarlier(targets))
    requires |reached| == |sorted| && forall i :: 0 <= i < |sorted| ==> reached[i] == sorted[i].path
    ensures NearestFirst(g, from, targets, reached) && NoDuplicates(reached)
  {
    forall i, j | 0 <= i < j < |sorted|
      ensures sorted[i].hops < sorted[j].hops
        || (sorted[i].hops == sorted[j].hops && Earlier(targets, reached[i], reached[j]))
    {
      assert Nearer(sorted[i], sorted[j]);
      assert Nearer(sorted[j], sorted[i]) ==> ListedEarlier(targets)(sorted[i], sorted[j]);
    }
    forall i, n: nat | 0 <= i < |reached| && Shortest(g, from, reached[i], n) ensures n == sorted[i].hops {
      assert sorted[i] in sorted;
    }
    forall i, j | 0 <= i < j < |reached| ensures reached[i] != reached[j] {
      assert sorted[i] in sorted && sorted[j] in sorted;
      if sorted[i].hops == sorted[j].hops {
        EarlierDiffers(targets, reached[i], reached[j]);
      }
    }
  }

  // ---- symmetry ----

  function Reversed<T>(p: seq<T>): (r: seq<T>)
    ensures |r| == |p| && forall i :: 0 <= i < |p| ==> r[i] == p[|p| - 1 - i]
  {
    seq(|p|, i requires 0 <= i < |p| => p[|p| - 1 - i])
  }

  lemma WalkBack(g: Graph, from: set<string>, t: string, n: nat, p: seq<string>)
    requires Undirected(g) && WalkOf(g, p, from, t, n)
    ensures WalkOf(g, Reversed(p), {t}, p[0], n)
  {
    var q := Reversed(p);
    forall i | 0 <= i < |q| - 1 ensures q[i + 1] in Neighbors(g, q[i]) {
      var j := |p| - 2 - i;
      assert p[j + 1] in Neighbors(g, p[j]);
    }
  }

  /** Some target is reached from some seed in `n` hops. */
  ghost predicate Reaches(g: Graph, from: set<string>, to: set<string>, n: nat) {
    exists t :: t in to && Within(g, from, t, n)
  }

  lemma ReachesBack(g: Graph, from: set<string>, to: set<string>, n: nat)
    requires Undirected(g) && Reaches(g, from, to, n)
    ensures Reaches(g, to, from, n)
  {
    var t :| t in to && Within(g, from, t, n);
    var p :| WalkOf(g, p, from, t, n);
    WalkBack(g, from, t, n, p);
    assert WalkOf(g, Reversed(p), to, p[0], n);
    assert Within(g, to, p[0], n);
  }

  lemma {:induction false} ShortestExists(g: Graph, from: set<string>, v: string, n: nat) returns (m: nat)
    requires Within(g, from, v, n)
    ensures m <= n && Shortest(g, from, v, m)
  {
    if exists k: nat :: k < n && Within(g, from, v, k) {
      var k: nat :| k < n && Within(g, from, v, k);
      m := ShortestExists(g, from, v, k);
    } else {
      m := n;
    }
  }

  /** On an undirected graph, swapping seeds and targets gives the same `hops` (and so `reachable`). */
  lemma SwapSeedsAndTargets(g: Graph, from: set<string>, to: set<string>, maxHops: int, hops: Option<nat>,
                            back: Option<nat>)
    requires Undirected(g)
    requires Verdict(g, from, to, maxHops, hops) && Verdict(g, to, from, maxHops, back)
    ensures hops == back
  {
    NoWorseBack(g, from, to, maxHops, hops, back);
    NoWorseBack(g, to, from, maxHops, back, hops);
  }

  lemma NoWorseBack(g: Graph, from: set<string>, to: set<string>, maxHops: int, hops: Option<nat>, back: Option<nat>)
    requires Undirected(g)
    requires Verdict(g, from, to, maxHops, hops) && Verdict(g, to, from, maxHops, back)
    ensures hops.Some? ==> back.Some? && back.value <= hops.value
  {
    if hops.Some? {
      var n := hops.value;
      assert Reaches(g, from, to, n);
      ReachesBack(g, from, to, n);
      var s :| s in from && Within(g, to, s, n);
      var m := ShortestExists(g, to, s, n);
      assert TargetAt(g, to, from, m);
    }
  }
}
