/** What a bounded neighbourhood is: undirected walks over allowed edges, hop counts,
    and the facts a breadth-first search needs. */
module Traversal {
  import opened Text
  import opened GraphModel

  datatype Query = Query(seeds: seq<NodeId>, depth: nat, types: Option<seq<string>>, maxNodes: nat)

  predicate Allowed(q: Query, e: Edge) {
    q.types.None? || e.etype in q.types.value
  }

  /** Edge `k` may be walked between `u` and `v`, in either direction. */
  predicate Joins(g: Graph, q: Query, k: EdgeId, u: NodeId, v: NodeId) {
    k in g.edges && Allowed(q, g.edges[k]) &&
    ((g.edges[k].from == u && g.edges[k].to == v) || (g.edges[k].to == u && g.edges[k].from == v))
  }

  ghost predicate Linked(g: Graph, q: Query, u: NodeId, v: NodeId) {
    exists k :: Joins(g, q, k, u, v)
  }

  function LiveSeeds(g: Graph, q: Query): set<NodeId> {
    set s | s in q.seeds && s in g.nodes
  }

  /** A walk from a seed that has a node; it makes `|p| - 1` hops. */
  ghost predicate Walk(g: Graph, q: Query, p: seq<NodeId>, v: NodeId) {
    && |p| > 0 && p[0] in LiveSeeds(g, q) && p[|p| - 1] == v
    && forall i :: 0 < i < |p| ==> Linked(g, q, p[i - 1], p[i])
  }

  /** `d` is the true shortest hop count to `v`. */
  ghost predicate ShortestHops(g: Graph, q: Query, v: NodeId, d: nat) {
    && (exists p :: Walk(g, q, p, v) && |p| == d + 1)
    && (forall p :: Walk(g, q, p, v) ==> |p| >= d + 1)
  }

  // ---- balls ----

  ghost function Neighbours(g: Graph, q: Query, s: set<NodeId>): set<NodeId> {
    (set k | k in g.edges && Allowed(q, g.edges[k]) && g.edges[k].from in s :: g.edges[k].to)
    + (set k | k in g.edges && Allowed(q, g.edges[k]) && g.edges[k].to in s :: g.edges[k].from)
  }

  ghost function Ball(g: Graph, q: Query, d: nat): set<NodeId> {
    if d == 0 then LiveSeeds(g, q)
    else Ball(g, q, d - 1) + Neighbours(g, q, Ball(g, q, d - 1))
  }

  lemma NeighboursAreLinked(g: Graph, q: Query, s: set<NodeId>, v: NodeId)
    ensures v in Neighbours(g, q, s) <==> exists u :: u in s && Linked(g, q, u, v)
  {
    if v in Neighbours(g, q, s) {
      if k :| k in g.edges && Allowed(q, g.edges[k]) && g.edges[k].from in s && g.edges[k].to == v {
        assert Joins(g, q, k, g.edges[k].from, v);
      } else {
        var k :| k in g.edges && Allowed(q, g.edges[k]) && g.edges[k].to in s && g.edges[k].from == v;
        assert Joins(g, q, k, g.edges[k].to, v);
      }
    }
    if u :| u in s && Linked(g, q, u, v) {
      var k :| Joins(g, q, k, u, v);
    }
  }

  lemma LinkGrowsBall(g: Graph, q: Query, u: NodeId, v: NodeId, d: nat)
    requires u in Ball(g, q, d) && Linked(g, q, u, v)
    ensures v in Ball(g, q, d + 1)
  {
    NeighboursAreLinked(g, q, Ball(g, q, d), v);
  }

  /** The ball of radius `d` is exactly what walks of at most `d` hops reach. */
  lemma {:induction false} BallHasWalk(g: Graph, q: Query, v: NodeId, d: nat) returns (p: seq<NodeId>)
    requires v in Ball(g, q, d)
    ensures Walk(g, q, p, v) && |p| <= d + 1
    decreases d
  {
    if d == 0 {
      p := [v];
    } else if v in Ball(g, q, d - 1) {
      p := BallHasWalk(g, q, v, d - 1);
    } else {
      NeighboursAreLinked(g, q, Ball(g, q, d - 1), v);
      var u :| u in Ball(g, q, d - 1) && Linked(g, q, u, v);
      p := BallHasWalk(g, q, u, d - 1);
      p := p + [v];
    }
  }

  lemma {:induction false} WalkStaysInBall(g: Graph, q: Query, p: seq<NodeId>, v: NodeId)
    requires Walk(g, q, p, v)
    ensures v in Ball(g, q, |p| - 1)
    decreases |p|
  {
    if |p| > 1 {
      var front := p[..|p| - 1];
      WalkStaysInBall(g, q, front, p[|p| - 2]);
      LinkGrowsBall(g, q, p[|p| - 2], v, |p| - 2);
    }
  }

  lemma {:induction false} BallMonotone(g: Graph, q: Query, d: nat, e: nat)
    requires d <= e
    ensures Ball(g, q, d) <= Ball(g, q, e)
    decreases e - d
  {
    if d < e {
      BallMonotone(g, q, d, e - 1);
    }
  }

  /** First appearing at radius `d` is having shortest hop count `d`. */
  ghost predicate FirstAt(g: Graph, q: Query, v: NodeId, d: nat) {
    v in Ball(g, q, d) && (d > 0 ==> v !in Ball(g, q, d - 1))
  }

  lemma FirstAtIsShortest(g: Graph, q: Query, v: NodeId, d: nat)
    requires FirstAt(g, q, v, d)
    ensures ShortestHops(g, q, v, d)
  {
    forall p | Walk(g, q, p, v) ensures |p| >= d + 1 {
      WalkStaysInBall(g, q, p, v);
      if |p| < d + 1 {
        BallMonotone(g, q, |p| - 1, d - 1);
      }
    }
    var p := BallHasWalk(g, q, v, d);
    assert |p| == d + 1;
  }

  // ---- the search state ----

  type Distances = map<NodeId, nat>

  /** All neighbours of `u` have been recorded. */
  ghost predicate Expanded(g: Graph, q: Query, dist: Distances, u: NodeId) {
    forall v {:trigger Linked(g, q, u, v)} :: Linked(g, q, u, v) ==> v in dist
  }

  /** The balls as plain sets, so that the search can be followed without unfolding them. */
  ghost predicate AreBalls(g: Graph, q: Query, balls: seq<set<NodeId>>) {
    |balls| == q.depth + 1 && forall d: nat {:trigger Ball(g, q, d)} :: d <= q.depth ==> balls[d] == Ball(g, q, d)
  }

  ghost predicate FirstIn(balls: seq<set<NodeId>>, v: NodeId, d: nat) {
    d < |balls| && v in balls[d] && (d > 0 ==> v !in balls[d - 1])
  }

  /** Every recorded distance is where its id first appears. */
  ghost predicate Recorded(balls: seq<set<NodeId>>, dist: Distances) {
    forall v :: v in dist ==> FirstIn(balls, v, dist[v])
  }

  lemma FirstInIsFirstAt(g: Graph, q: Query, balls: seq<set<NodeId>>, v: NodeId, d: nat)
    requires AreBalls(g, q, balls)
    ensures FirstIn(balls, v, d) <==> d <= q.depth && FirstAt(g, q, v, d)
  {
    if d <= q.depth {
      assert balls[d] == Ball(g, q, d);
      assert d > 0 ==> balls[d - 1] == Ball(g, q, d - 1);
    }
  }

  lemma FirstAtIsLeast(g: Graph, q: Query, v: NodeId, first: nat, d: nat)
    requires FirstAt(g, q, v, first) && v in Ball(g, q, d)
    ensures first <= d
  {
    if first > d {
      BallMonotone(g, q, d, first - 1);
    }
  }

  /** Once everything closer than `h` is expanded, the ball of radius `h` is recorded. */
  lemma {:induction false} BallCovered(g: Graph, q: Query, balls: seq<set<NodeId>>, dist: Distances, h: nat, d: nat,
                                       v: NodeId)
    requires d <= h && AreBalls(g, q, balls) && Recorded(balls, dist) && LiveSeeds(g, q) <= dist.Keys
    requires forall u :: u in dist && dist[u] < h ==> Expanded(g, q, dist, u)
    requires v in Ball(g, q, d)
    ensures v in dist && dist[v] <= d
    decreases d
  {
    if d > 0 {
      if v in Ball(g, q, d - 1) {
        BallCovered(g, q, balls, dist, h, d - 1, v);
      } else {
        NeighboursAreLinked(g, q, Ball(g, q, d - 1), v);
        var u :| u in Ball(g, q, d - 1) && Linked(g, q, u, v);
        BallCovered(g, q, balls, dist, h, d - 1, u);
        assert Expanded(g, q, dist, u);
      }
    }
    FirstInIsFirstAt(g, q, balls, v, dist[v]);
    FirstAtIsLeast(g, q, v, dist[v], d);
  }

  /** The queue is ordered by distance and within one hop of `level`; everything recorded is
      finished, waiting, busy, or at full depth. */
  ghost predicate Frontier(depth: nat, dist: Distances, queue: seq<NodeId>, busy: set<NodeId>, finished: set<NodeId>,
                           level: nat) {
    && (forall v :: v in queue ==> v in dist && dist[v] >= level)
    && (forall i, j :: 0 <= i < j < |queue| ==> dist[queue[i]] <= dist[queue[j]])
    && (forall v :: v in dist ==> dist[v] <= level + 1)
    && (forall v :: v in dist ==> v in queue || v in busy || v in finished || dist[v] >= depth)
  }

  /** All allowed edges of `u` have been taken. */
  ghost predicate TookAll(g: Graph, q: Query, u: NodeId, taken: set<EdgeId>) {
    forall k :: k in g.edges && Allowed(q, g.edges[k]) && Incident(g.edges[k], u) ==> k in taken
  }

  ghost predicate AllTook(g: Graph, q: Query, us: set<NodeId>, taken: set<EdgeId>) {
    forall u :: u in us ==> TookAll(g, q, u, taken)
  }

  /** Taken edges are allowed and touch something closer than the depth. */
  ghost predicate Taken(g: Graph, q: Query, dist: Distances, taken: set<EdgeId>) {
    forall k {:trigger Takeable(g, q, dist, k)} :: k in taken ==> Takeable(g, q, dist, k)
  }

  ghost predicate Takeable(g: Graph, q: Query, dist: Distances, k: EdgeId) {
    k in g.edges && Allowed(q, g.edges[k]) && Near(g, q, dist, k)
  }

  /** Some end is closer than the depth. */
  ghost predicate Near(g: Graph, q: Query, dist: Distances, k: EdgeId)
    requires k in g.edges
  {
    exists u :: u in dist && dist[u] < q.depth && Incident(g.edges[k], u)
  }

  predicate EndsIn(g: Graph, dist: Distances, taken: set<EdgeId>) {
    forall k :: k in taken ==> k in g.edges && g.edges[k].from in dist && g.edges[k].to in dist
  }

  lemma TookAllIsExpanded(g: Graph, q: Query, dist: Distances, taken: set<EdgeId>, u: NodeId)
    requires TookAll(g, q, u, taken) && EndsIn(g, dist, taken)
    ensures Expanded(g, q, dist, u)
  {
    forall v | Linked(g, q, u, v) ensures v in dist {
      var k :| Joins(g, q, k, u, v);
      assert k in taken;
    }
  }

  /** Before anything is recorded one hop behind `current`, everything up to its own distance is. */
  lemma LevelIsRecorded(g: Graph, q: Query, balls: seq<set<NodeId>>, dist: Distances, queue: seq<NodeId>,
                        current: NodeId, finished: set<NodeId>, taken: set<EdgeId>)
    requires AreBalls(g, q, balls) && Recorded(balls, dist) && LiveSeeds(g, q) <= dist.Keys
    requires current in dist && dist[current] < q.depth
    requires Frontier(q.depth, dist, queue, {current}, finished, dist[current])
    requires AllTook(g, q, finished, taken) && EndsIn(g, dist, taken)
    ensures dist[current] < |balls| && balls[dist[current]] <= dist.Keys
  {
    var h := dist[current];
    assert balls[h] == Ball(g, q, h);
    forall u | u in dist && dist[u] < h ensures Expanded(g, q, dist, u) {
      assert u in finished;
      TookAllIsExpanded(g, q, dist, taken, u);
    }
    forall v | v in Ball(g, q, h) ensures v in dist {
      BallCovered(g, q, balls, dist, h, h, v);
    }
  }

  /** A neighbour met for the first time is exactly one hop further than the node it is met from. */
  lemma NewNeighbour(g: Graph, q: Query, balls: seq<set<NodeId>>, dist: Distances, current: NodeId, v: NodeId)
    requires AreBalls(g, q, balls) && Recorded(balls, dist)
    requires current in dist && dist[current] < q.depth && dist[current] < |balls|
    requires balls[dist[current]] <= dist.Keys && Linked(g, q, current, v) && v !in dist
    ensures FirstIn(balls, v, dist[current] + 1)
  {
    var h := dist[current];
    FirstInIsFirstAt(g, q, balls, current, h);
    LinkGrowsBall(g, q, current, v, h);
    FirstInIsFirstAt(g, q, balls, v, h + 1);
    assert balls[h] == Ball(g, q, h);
  }

  /** Everything nearer than `v` is recorded, if `v` is. */
  ghost predicate NearerKept(balls: seq<set<NodeId>>, dist: Distances, v: NodeId) {
    v in dist && 0 < dist[v] <= |balls| ==> balls[dist[v] - 1] <= dist.Keys
  }

  ghost predicate Nearest(balls: seq<set<NodeId>>, dist: Distances) {
    forall v {:trigger NearerKept(balls, dist, v)} :: NearerKept(balls, dist, v)
  }

  lemma InsertKeepsNearest(balls: seq<set<NodeId>>, dist: Distances, v: NodeId, d: nat)
    requires Nearest(balls, dist) && v !in dist && d < |balls| && balls[d] <= dist.Keys
    ensures Nearest(balls, dist[v := d + 1])
  {
    var dist' := dist[v := d + 1];
    forall u ensures NearerKept(balls, dist', u) {
      assert NearerKept(balls, dist, u);
    }
  }

  lemma InsertKeepsRecorded(balls: seq<set<NodeId>>, dist: Distances, v: NodeId, d: nat)
    requires Recorded(balls, dist) && FirstIn(balls, v, d)
    ensures Recorded(balls, dist[v := d])
  {
  }

  lemma InsertKeepsFrontier(depth: nat, dist: Distances, queue: seq<NodeId>, busy: set<NodeId>, finished: set<NodeId>,
                            level: nat, v: NodeId)
    requires Frontier(depth, dist, queue, busy, finished, level) && v !in dist
    ensures Frontier(depth, dist[v := level + 1], queue + [v], busy, finished, level)
  {
    var dist', queue' := dist[v := level + 1], queue + [v];
    assert v in queue';
    forall u | u in dist' ensures u in queue' || u in busy || u in finished || dist'[u] >= depth {
      if u != v && u in queue {
        assert u in queue';
      }
    }
  }

  lemma InsertKeepsTaken(g: Graph, q: Query, dist: Distances, v: NodeId, d: nat, taken: set<EdgeId>)
    requires Taken(g, q, dist, taken) && v !in dist
    ensures Taken(g, q, dist[v := d], taken)
  {
    forall k | k in taken ensures Takeable(g, q, dist[v := d], k) {
      assert Takeable(g, q, dist, k);
      var u :| u in dist && dist[u] < q.depth && Incident(g.edges[k], u);
      assert u in dist[v := d];
    }
  }

  /** What a search returns: distances that are exact, complete unless the cap was hit, no more
      of them than the cap or the seeds, and the nearest ids first. */
  ghost predicate ExactSearch(g: Graph, q: Query, dist: Distances) {
    && (forall v :: v in dist ==> dist[v] <= q.depth && ShortestHops(g, q, v, dist[v]))
    && (|dist| < q.maxNodes ==> forall p, v :: Walk(g, q, p, v) && |p| <= q.depth + 1 ==> v in dist)
    && (|dist| <= q.maxNodes || |dist| <= |LiveSeeds(g, q)|)
    && LiveSeeds(g, q) <= dist.Keys
    && (forall u, v, d: nat :: v in dist && d < dist[v] && ShortestHops(g, q, u, d) ==> u in dist)
  }

  lemma NearestAreKept(g: Graph, q: Query, balls: seq<set<NodeId>>, dist: Distances, u: NodeId, v: NodeId, d: nat)
    requires AreBalls(g, q, balls) && Recorded(balls, dist) && Nearest(balls, dist)
    requires v in dist && d < dist[v] && ShortestHops(g, q, u, d)
    ensures u in dist
  {
    var n: nat := dist[v] - 1;
    assert FirstIn(balls, v, dist[v]) && NearerKept(balls, dist, v);
    ShortIsInBall(g, q, u, d, n);
    assert balls[n] == Ball(g, q, n);
  }

  lemma ShortIsInBall(g: Graph, q: Query, u: NodeId, d: nat, n: nat)
    requires d <= n && ShortestHops(g, q, u, d)
    ensures u in Ball(g, q, n)
  {
    var p :| Walk(g, q, p, u) && |p| == d + 1;
    WalkStaysInBall(g, q, p, u);
    BallMonotone(g, q, d, n);
  }

  /** Zero hops means being a seed that has a node. */
  lemma ZeroHopsIff(g: Graph, q: Query, v: NodeId, d: nat)
    requires ShortestHops(g, q, v, d)
    ensures d == 0 <==> v in q.seeds && v in g.nodes
  {
    if v in q.seeds && v in g.nodes {
      assert Walk(g, q, [v], v);
    }
    var p :| Walk(g, q, p, v) && |p| == d + 1;
  }

  lemma RecordedAreShortest(g: Graph, q: Query, balls: seq<set<NodeId>>, dist: Distances)
    requires AreBalls(g, q, balls) && Recorded(balls, dist)
    ensures forall v :: v in dist ==> dist[v] <= q.depth && ShortestHops(g, q, v, dist[v])
  {
    forall v | v in dist ensures dist[v] <= q.depth && ShortestHops(g, q, v, dist[v]) {
      FirstInIsFirstAt(g, q, balls, v, dist[v]);
      FirstAtIsShortest(g, q, v, dist[v]);
    }
  }

  lemma UncappedSearchIsComplete(g: Graph, q: Query, balls: seq<set<NodeId>>, dist: Distances, finished: set<NodeId>,
                                 taken: set<EdgeId>, level: nat, p: seq<NodeId>, v: NodeId)
    requires AreBalls(g, q, balls) && Recorded(balls, dist) && LiveSeeds(g, q) <= dist.Keys
    requires Frontier(q.depth, dist, [], {}, finished, level)
    requires AllTook(g, q, finished, taken) && EndsIn(g, dist, taken)
    requires Walk(g, q, p, v) && |p| <= q.depth + 1
    ensures v in dist
  {
    forall u | u in dist && dist[u] < q.depth ensures Expanded(g, q, dist, u) {
      assert u in finished;
      TookAllIsExpanded(g, q, dist, taken, u);
    }
    WalkStaysInBall(g, q, p, v);
    BallMonotone(g, q, |p| - 1, q.depth);
    BallCovered(g, q, balls, dist, q.depth, q.depth, v);
  }

  /** The edges of an uncapped search: the allowed ones with an end closer than the depth. */
  lemma UncappedEdges(g: Graph, q: Query, dist: Distances, finished: set<NodeId>, taken: set<EdgeId>, level: nat)
    requires Taken(g, q, dist, taken) && Frontier(q.depth, dist, [], {}, finished, level)
    requires AllTook(g, q, finished, taken)
    ensures forall k :: k in taken <==> k in g.edges && Allowed(q, g.edges[k]) && Near(g, q, dist, k)
  {
    forall k | k in taken ensures k in g.edges && Allowed(q, g.edges[k]) && Near(g, q, dist, k) {
      assert Takeable(g, q, dist, k);
    }
    forall k | k in g.edges && Allowed(q, g.edges[k]) && Near(g, q, dist, k) ensures k in taken {
      var u :| u in dist && dist[u] < q.depth && Incident(g.edges[k], u);
      assert u in finished && TookAll(g, q, u, taken);
    }
  }

  lemma SearchFinished(g: Graph, q: Query, balls: seq<set<NodeId>>, dist: Distances, finished: set<NodeId>,
                       taken: set<EdgeId>, level: nat)
    requires AreBalls(g, q, balls) && Recorded(balls, dist) && LiveSeeds(g, q) <= dist.Keys
    requires Frontier(q.depth, dist, [], {}, finished, level)
    requires |dist| < q.maxNodes ==> AllTook(g, q, finished, taken) && EndsIn(g, dist, taken)
    requires |dist| <= q.maxNodes || |dist| <= |LiveSeeds(g, q)|
    requires Nearest(balls, dist)
    ensures ExactSearch(g, q, dist)
  {
    RecordedAreShortest(g, q, balls, dist);
    forall u, v, d: nat | v in dist && d < dist[v] && ShortestHops(g, q, u, d) ensures u in dist {
      NearestAreKept(g, q, balls, dist, u, v, d);
    }
    if |dist| < q.maxNodes {
      forall p, v | Walk(g, q, p, v) && |p| <= q.depth + 1 ensures v in dist {
        UncappedSearchIsComplete(g, q, balls, dist, finished, taken, level, p, v);
      }
    }
  }

  /** The taken edges whose ends were both recorded. */
  function Kept(g: Graph, dist: Distances, taken: set<EdgeId>): set<EdgeId> {
    set k | k in taken && k in g.edges && g.edges[k].from in dist && g.edges[k].to in dist
  }

  lemma KeptEdges(g: Graph, q: Query, dist: Distances, finished: set<NodeId>, taken: set<EdgeId>, level: nat)
    requires Taken(g, q, dist, taken) && Frontier(q.depth, dist, [], {}, finished, level)
    requires |dist| < q.maxNodes ==> AllTook(g, q, finished, taken) && EndsIn(g, dist, taken)
    ensures Taken(g, q, dist, Kept(g, dist, taken)) && EndsIn(g, dist, Kept(g, dist, taken))
    ensures |dist| < q.maxNodes ==>
      forall k :: k in Kept(g, dist, taken) <==> k in g.edges && Allowed(q, g.edges[k]) && Near(g, q, dist, k)
  {
    forall k | k in Kept(g, dist, taken) ensures Takeable(g, q, dist, k) {
      assert k in taken;
    }
    if |dist| < q.maxNodes {
      assert Kept(g, dist, taken) == taken;
      UncappedEdges(g, q, dist, finished, taken, level);
    }
  }

  // ---- the steps of the search ----

  ghost function Ids(g: Graph): set<NodeId> {
    g.nodes.Keys + (set k | k in g.edges :: g.edges[k].from) + (set k | k in g.edges :: g.edges[k].to)
  }

  function Other(e: Edge, current: NodeId): NodeId {
    if e.from == current then e.to else e.from
  }

  lemma PopKeepsFrontier(depth: nat, dist: Distances, queue: seq<NodeId>, finished: set<NodeId>, level: nat)
    requires Frontier(depth, dist, queue, {}, finished, level) && queue != []
    ensures queue[0] in dist
    ensures Frontier(depth, dist, queue[1..], {queue[0]}, finished, dist[queue[0]])
  {
    assert queue == [queue[0]] + queue[1..];
  }

  method SeedQueue(g: Graph, q: Query) returns (distance: Distances, queue: seq<NodeId>)
    ensures distance.Keys == LiveSeeds(g, q) && forall v :: v in distance ==> distance[v] == 0
    ensures forall v :: v in queue <==> v in distance
    ensures |distance| == |LiveSeeds(g, q)|
  {
    distance, queue := map[], [];
    for i := 0 to |q.seeds|
      invariant distance.Keys == LiveAmong(g, q.seeds[..i]) && SetOf(queue) == distance.Keys
      invariant forall v :: v in distance ==> distance[v] == 0
    {
      var seed := q.seeds[i];
      LiveOneMore(g, q.seeds, i);
      if seed in g.nodes && seed !in distance {
        EnqueueOne(queue, seed);
        distance, queue := distance[seed := 0], queue + [seed];
      }
    }
    assert q.seeds[..|q.seeds|] == q.seeds;
    assert forall v :: v in queue <==> v in SetOf(queue);
    assert |distance| == |distance.Keys|;
  }

  function LiveAmong(g: Graph, seeds: seq<NodeId>): set<NodeId> {
    set s | s in seeds && s in g.nodes
  }

  lemma LiveOneMore(g: Graph, seeds: seq<NodeId>, i: nat)
    requires i < |seeds|
    ensures LiveAmong(g, seeds[..i + 1]) == LiveAmong(g, seeds[..i]) + if seeds[i] in g.nodes then {seeds[i]} else {}
  {
    assert seeds[..i + 1] == seeds[..i] + [seeds[i]];
  }

  lemma EnqueueOne(queue: seq<NodeId>, v: NodeId)
    ensures SetOf(queue + [v]) == SetOf(queue) + {v}
  {
  }

  /** The listed edges are incident to `current`, and every incident edge is listed. */
  ghost predicate AllIncident(g: Graph, current: NodeId, incident: seq<EdgeId>) {
    forall i :: 0 <= i < |incident| ==> incident[i] in g.edges && Incident(g.edges[incident[i]], current)
  }

  ghost predicate HoldsIncident(g: Graph, current: NodeId, incident: seq<EdgeId>) {
    forall k :: k in g.edges && Incident(g.edges[k], current) ==> k in incident
  }

  /** The allowed ones among the first `n` listed edges are taken. */
  ghost predicate TookUpTo(g: Graph, q: Query, incident: seq<EdgeId>, n: nat, taken: set<EdgeId>)
    requires n <= |incident|
  {
    forall i :: 0 <= i < n && incident[i] in g.edges && Allowed(q, g.edges[incident[i]]) ==> incident[i] in taken
  }

  lemma TookOneMore(g: Graph, q: Query, incident: seq<EdgeId>, n: nat, before: set<EdgeId>, after: set<EdgeId>)
    requires n < |incident| && TookUpTo(g, q, incident, n, before) && before <= after
    requires incident[n] in g.edges && Allowed(q, g.edges[incident[n]]) ==> incident[n] in after
    ensures TookUpTo(g, q, incident, n + 1, after)
  {
  }

  /** The distances and the queue while `current`, recorded at `level`, is being expanded. */
  ghost predicate Placed(g: Graph, q: Query, balls: seq<set<NodeId>>, current: NodeId, level: nat,
                         finished: set<NodeId>, dist: Distances, queue: seq<NodeId>)
  {
    && current in dist && dist[current] == level && level < q.depth
    && Frontier(q.depth, dist, queue, {current}, finished, level)
    && Recorded(balls, dist) && Nearest(balls, dist) && LiveSeeds(g, q) <= dist.Keys <= Ids(g)
    && |dist| <= q.maxNodes
  }

  /** The edges taken meanwhile. */
  ghost predicate Collected(g: Graph, q: Query, finished: set<NodeId>, dist: Distances, taken: set<EdgeId>) {
    && Taken(g, q, dist, taken) && AllTook(g, q, finished, taken)
    && (|dist| < q.maxNodes ==> EndsIn(g, dist, taken))
  }

  ghost predicate Expanding(g: Graph, q: Query, balls: seq<set<NodeId>>, current: NodeId, level: nat,
                            finished: set<NodeId>, dist: Distances, queue: seq<NodeId>, taken: set<EdgeId>)
  {
    Placed(g, q, balls, current, level, finished, dist, queue) && Collected(g, q, finished, dist, taken)
  }

  /** Record what one node's incident edges lead to. */
  method ExpandNode(g: Graph, q: Query, current: NodeId, incident: seq<EdgeId>, before: Distances, waiting: seq<NodeId>,
                    takenBefore: set<EdgeId>, ghost balls: seq<set<NodeId>>, ghost level: nat,
                    ghost finished: set<NodeId>)
    returns (distance: Distances, queue: seq<NodeId>, taken: set<EdgeId>)
    requires AllIncident(g, current, incident)
    requires AreBalls(g, q, balls) && Expanding(g, q, balls, current, level, finished, before, waiting, takenBefore)
    ensures Expanding(g, q, balls, current, level, finished, distance, queue, taken)
    ensures TookUpTo(g, q, incident, |incident|, taken)
    ensures before.Keys < distance.Keys || (distance == before && queue == waiting)
  {
    distance, queue, taken := before, waiting, takenBefore;
    for i := 0 to |incident|
      invariant Expanding(g, q, balls, current, level, finished, distance, queue, taken)
      invariant TookUpTo(g, q, incident, i, taken)
      invariant before.Keys < distance.Keys || (distance == before && queue == waiting)
    {
      ghost var takenSoFar := taken;
      assert incident[i] in g.edges;
      if Allowed(q, g.edges[incident[i]]) {
        distance, queue := FollowEdge(g, q, current, incident[i], distance, queue, taken, balls, level, finished);
        taken := taken + {incident[i]};
      }
      TookOneMore(g, q, incident, i, takenSoFar, taken);
    }
  }

  lemma CurrentTook(g: Graph, q: Query, current: NodeId, incident: seq<EdgeId>, finished: set<NodeId>,
                    taken: set<EdgeId>)
    requires HoldsIncident(g, current, incident)
    requires AllTook(g, q, finished, taken) && TookUpTo(g, q, incident, |incident|, taken)
    ensures AllTook(g, q, finished + {current}, taken)
  {
    forall k | k in g.edges && Allowed(q, g.edges[k]) && Incident(g.edges[k], current) ensures k in taken {
      var i :| 0 <= i < |incident| && incident[i] == k;
    }
    assert TookAll(g, q, current, taken);
  }

  method FollowEdge(g: Graph, q: Query, current: NodeId, eid: EdgeId, before: Distances, waiting: seq<NodeId>,
                    ghost taken: set<EdgeId>, ghost balls: seq<set<NodeId>>, ghost level: nat,
                    ghost finished: set<NodeId>)
    returns (distance: Distances, queue: seq<NodeId>)
    requires eid in g.edges && Allowed(q, g.edges[eid]) && Incident(g.edges[eid], current)
    requires AreBalls(g, q, balls) && Expanding(g, q, balls, current, level, finished, before, waiting, taken)
    ensures Expanding(g, q, balls, current, level, finished, distance, queue, taken + {eid})
    ensures before.Keys < distance.Keys || (distance == before && queue == waiting)
  {
    distance, queue := before, waiting;
    var other := Other(g.edges[eid], current);
    if other !in distance && |distance| < q.maxNodes {
      distance := distance[other := distance[current] + 1];
      queue := queue + [other];
    }
    FollowKeepsPlaced(g, q, balls, current, level, finished, before, waiting, taken, eid, distance, queue);
    TakeKeepsCollected(g, q, current, finished, before, taken, eid, distance);
  }

  /** The distances after following an edge to `v`, one hop behind distance `d`. */
  function Followed(q: Query, dist: Distances, v: NodeId, d: nat): Distances {
    if v !in dist && |dist| < q.maxNodes then dist[v := d + 1] else dist
  }

  lemma FollowKeepsPlaced(g: Graph, q: Query, balls: seq<set<NodeId>>, current: NodeId, level: nat,
                          finished: set<NodeId>, dist: Distances, queue: seq<NodeId>, taken: set<EdgeId>,
                          eid: EdgeId, dist': Distances, queue': seq<NodeId>)
    requires eid in g.edges && Allowed(q, g.edges[eid]) && Incident(g.edges[eid], current)
    requires AreBalls(g, q, balls) && Expanding(g, q, balls, current, level, finished, dist, queue, taken)
    requires dist' == Followed(q, dist, Other(g.edges[eid], current), level)
    requires queue' == if dist' == dist then queue else queue + [Other(g.edges[eid], current)]
    ensures Placed(g, q, balls, current, level, finished, dist', queue')
    ensures dist.Keys < dist'.Keys || (dist' == dist && queue' == queue)
  {
    var other := Other(g.edges[eid], current);
    if other !in dist && |dist| < q.maxNodes {
      assert other in dist';
      RecordKeepsPlaced(g, q, balls, current, level, finished, dist, queue, taken, eid, dist', queue');
    }
  }

  /** Recording the other end of an edge, met for the first time. */
  lemma RecordKeepsPlaced(g: Graph, q: Query, balls: seq<set<NodeId>>, current: NodeId, level: nat,
                          finished: set<NodeId>, dist: Distances, queue: seq<NodeId>, taken: set<EdgeId>,
                          eid: EdgeId, dist': Distances, queue': seq<NodeId>)
    requires eid in g.edges && Allowed(q, g.edges[eid]) && Incident(g.edges[eid], current)
    requires AreBalls(g, q, balls) && Expanding(g, q, balls, current, level, finished, dist, queue, taken)
    requires Other(g.edges[eid], current) !in dist && |dist| < q.maxNodes
    requires dist' == dist[Other(g.edges[eid], current) := level + 1]
    requires queue' == queue + [Other(g.edges[eid], current)]
    ensures Placed(g, q, balls, current, level, finished, dist', queue') && dist.Keys < dist'.Keys
  {
    OtherIsNew(g, q, balls, current, level, finished, dist, queue, taken, eid);
    InsertKeepsPlaced(g, q, balls, current, level, finished, dist, queue, Other(g.edges[eid], current), dist', queue');
  }

  lemma OtherIsNew(g: Graph, q: Query, balls: seq<set<NodeId>>, current: NodeId, level: nat,
                   finished: set<NodeId>, dist: Distances, queue: seq<NodeId>, taken: set<EdgeId>, eid: EdgeId)
    requires eid in g.edges && Allowed(q, g.edges[eid]) && Incident(g.edges[eid], current)
    requires AreBalls(g, q, balls) && Expanding(g, q, balls, current, level, finished, dist, queue, taken)
    requires Other(g.edges[eid], current) !in dist && |dist| < q.maxNodes
    ensures FirstIn(balls, Other(g.edges[eid], current), level + 1)
    ensures level < |balls| && balls[level] <= dist.Keys && Other(g.edges[eid], current) in Ids(g)
  {
    var other := Other(g.edges[eid], current);
    OtherIsLinked(g, q, current, eid);
    LevelIsRecorded(g, q, balls, dist, queue, current, finished, taken);
    NewNeighbour(g, q, balls, dist, current, other);
  }

  lemma OtherIsLinked(g: Graph, q: Query, current: NodeId, eid: EdgeId)
    requires eid in g.edges && Allowed(q, g.edges[eid]) && Incident(g.edges[eid], current)
    ensures Linked(g, q, current, Other(g.edges[eid], current)) && Other(g.edges[eid], current) in Ids(g)
  {
    assert Joins(g, q, eid, current, Other(g.edges[eid], current));
  }

  lemma InsertKeepsPlaced(g: Graph, q: Query, balls: seq<set<NodeId>>, current: NodeId, level: nat,
                          finished: set<NodeId>, dist: Distances, queue: seq<NodeId>, v: NodeId,
                          dist': Distances, queue': seq<NodeId>)
    requires Placed(g, q, balls, current, level, finished, dist, queue) && v !in dist && |dist| < q.maxNodes
    requires FirstIn(balls, v, level + 1) && level < |balls| && balls[level] <= dist.Keys && v in Ids(g)
    requires dist' == dist[v := level + 1] && queue' == queue + [v]
    ensures Placed(g, q, balls, current, level, finished, dist', queue') && dist.Keys < dist'.Keys
  {
    InsertKeepsState(q.depth, balls, dist, queue, current, finished, v, dist', queue');
    InsertKeepsNearest(balls, dist, v, level);
  }

  /** Taking an incident edge; its other end is recorded unless the cap is hit. */
  lemma TakeKeepsCollected(g: Graph, q: Query, current: NodeId, finished: set<NodeId>, dist: Distances,
                           taken: set<EdgeId>, eid: EdgeId, dist': Distances)
    requires eid in g.edges && Allowed(q, g.edges[eid]) && Incident(g.edges[eid], current)
    requires current in dist && dist[current] < q.depth && |dist| <= q.maxNodes
    requires Collected(g, q, finished, dist, taken)
    requires dist' == Followed(q, dist, Other(g.edges[eid], current), dist[current])
    ensures Collected(g, q, finished, dist', taken + {eid})
  {
    var other := Other(g.edges[eid], current);
    TakeOne(g, q, current, dist, taken, eid);
    if other !in dist && |dist| < q.maxNodes {
      InsertKeepsTaken(g, q, dist, other, dist[current] + 1, taken + {eid});
      assert dist'.Keys == dist.Keys + {other} && |dist'| == |dist| + 1;
    }
    TookMore(g, q, finished, taken, taken + {eid});
    if |dist'| < q.maxNodes {
      EndsInMore(g, dist, dist', taken, eid);
    }
  }

  lemma TakeOne(g: Graph, q: Query, current: NodeId, dist: Distances, taken: set<EdgeId>, eid: EdgeId)
    requires eid in g.edges && Allowed(q, g.edges[eid]) && Incident(g.edges[eid], current)
    requires current in dist && dist[current] < q.depth && Taken(g, q, dist, taken)
    ensures Taken(g, q, dist, taken + {eid})
  {
    forall k | k in taken + {eid} ensures Takeable(g, q, dist, k) {
      assert k in taken ==> Takeable(g, q, dist, k);
      assert k == eid ==> Near(g, q, dist, eid);
    }
  }

  lemma TookMore(g: Graph, q: Query, us: set<NodeId>, taken: set<EdgeId>, more: set<EdgeId>)
    requires AllTook(g, q, us, taken) && taken <= more
    ensures AllTook(g, q, us, more)
  {
    forall u | u in us ensures TookAll(g, q, u, more) {
      assert TookAll(g, q, u, taken);
    }
  }

  lemma EndsInMore(g: Graph, dist: Distances, dist': Distances, taken: set<EdgeId>, eid: EdgeId)
    requires EndsIn(g, dist, taken) && dist.Keys <= dist'.Keys
    requires eid in g.edges && g.edges[eid].from in dist' && g.edges[eid].to in dist'
    ensures EndsIn(g, dist', taken + {eid})
  {
  }

  /** An expanded node, or one at full depth, needs no more attention. */
  lemma FinishKeepsFrontier(depth: nat, dist: Distances, queue: seq<NodeId>, current: NodeId, finished: set<NodeId>,
                            level: nat)
    requires current in dist && Frontier(depth, dist, queue, {current}, finished, level)
    ensures dist[current] >= depth ==> Frontier(depth, dist, queue, {}, finished, level)
    ensures dist[current] == level ==> Frontier(depth, dist, queue, {}, finished + {current}, level)
  {
  }

  lemma InsertKeepsState(depth: nat, balls: seq<set<NodeId>>, dist: Distances, queue: seq<NodeId>, current: NodeId,
                         finished: set<NodeId>, v: NodeId, dist': Distances, queue': seq<NodeId>)
    requires current in dist && v !in dist && Recorded(balls, dist) && FirstIn(balls, v, dist[current] + 1)
    requires Frontier(depth, dist, queue, {current}, finished, dist[current])
    requires dist' == dist[v := dist[current] + 1] && queue' == queue + [v]
    ensures Recorded(balls, dist') && Frontier(depth, dist', queue', {current}, finished, dist[current])
    ensures dist'.Keys == dist.Keys + {v} && |dist'| == |dist| + 1
  {
    InsertKeepsRecorded(balls, dist, v, dist[current] + 1);
    InsertKeepsFrontier(depth, dist, queue, {current}, finished, dist[current], v);
  }
}
