/** The in-memory store with its derived indexes, its log and its snapshot file. */
module GraphStore {
  import opened Text
  import opened GraphModel
  import opened WalLog
  import opened Durability
  import opened Traversal

  /** How many mutations to apply before folding the log into a fresh snapshot. */
  const SNAPSHOT_EVERY: nat := 512

  type Adjacency = map<NodeId, seq<EdgeId>>
  type Labels = map<string, set<NodeId>>

  // ---- what a full scan would say ----

  /** The end of an edge an adjacency index is keyed by. */
  function End(e: Edge, outgoing: bool): NodeId {
    if outgoing then e.from else e.to
  }

  function ListAt(adj: Adjacency, n: NodeId): seq<EdgeId> {
    if n in adj then adj[n] else []
  }

  /** The list holds exactly the edges a scan finds at `n`, each once. */
  ghost predicate ListExact(edges: map<EdgeId, Edge>, list: seq<EdgeId>, outgoing: bool, n: NodeId) {
    Distinct(list) && forall k :: k in list <==> k in edges && End(edges[k], outgoing) == n
  }

  ghost predicate AdjacencyExact(edges: map<EdgeId, Edge>, adj: Adjacency, outgoing: bool) {
    forall n :: ListExact(edges, ListAt(adj, n), outgoing, n)
  }

  predicate Labelled(labels: Labels, l: string, n: NodeId) {
    l in labels && n in labels[l]
  }

  ghost predicate LabelsExact(nodes: map<NodeId, Node>, labels: Labels) {
    forall l, n :: Labelled(labels, l, n) <==> n in nodes && l in nodes[n].labels
  }

  // ---- adjacency updates ----

  function Without(s: seq<EdgeId>, k: EdgeId): (r: seq<EdgeId>)
    ensures forall x :: x in r <==> x in s && x != k
    ensures Distinct(s) ==> Distinct(r)
  {
    if s == [] then []
    else
      var rest := Without(s[1..], k);
      assert Distinct(s) ==> Distinct(s[1..]) && s[0] !in s[1..];
      if s[0] == k then rest else [s[0]] + rest
  }

  function Detach(adj: Adjacency, n: NodeId, k: EdgeId): Adjacency {
    if n in adj then adj[n := Without(adj[n], k)] else adj
  }

  function Attach(adj: Adjacency, n: NodeId, k: EdgeId): Adjacency {
    adj[n := ListAt(adj, n) + [k]]
  }

  lemma DetachExact(edges: map<EdgeId, Edge>, adj: Adjacency, outgoing: bool, k: EdgeId)
    requires AdjacencyExact(edges, adj, outgoing) && k in edges
    ensures AdjacencyExact(edges - {k}, Detach(adj, End(edges[k], outgoing), k), outgoing)
  {
    var n0 := End(edges[k], outgoing);
    var adj' := Detach(adj, n0, k);
    forall n ensures ListExact(edges - {k}, ListAt(adj', n), outgoing, n) {
      assert ListExact(edges, ListAt(adj, n), outgoing, n);
      assert ListAt(adj', n) == if n == n0 then Without(ListAt(adj, n), k) else ListAt(adj, n);
    }
  }

  lemma AttachExact(edges: map<EdgeId, Edge>, adj: Adjacency, outgoing: bool, e: Edge)
    requires AdjacencyExact(edges, adj, outgoing) && e.id !in edges
    ensures AdjacencyExact(edges[e.id := e], Attach(adj, End(e, outgoing), e.id), outgoing)
  {
    var n0 := End(e, outgoing);
    var adj', edges' := Attach(adj, n0, e.id), edges[e.id := e];
    forall n ensures ListExact(edges', ListAt(adj', n), outgoing, n) {
      assert ListExact(edges, ListAt(adj, n), outgoing, n);
      if n == n0 {
        assert ListAt(adj', n) == ListAt(adj, n) + [e.id] && e.id !in ListAt(adj, n);
      } else {
        assert ListAt(adj', n) == ListAt(adj, n);
      }
    }
  }

  // ---- the snapshot file ----

  datatype Snapshot = Snapshot(nodes: seq<Node>, edges: seq<Edge>)

  function NodeUpserts(nodes: seq<Node>): seq<Mutation> {
    seq(|nodes|, i requires 0 <= i < |nodes| => UpsertNode(nodes[i]))
  }

  function EdgeUpserts(edges: seq<Edge>): seq<Mutation> {
    seq(|edges|, i requires 0 <= i < |edges| => UpsertEdge(edges[i]))
  }

  /** The graph a snapshot file loads as. */
  function GraphOf(file: Snapshot): Graph {
    Replay(Replay(EMPTY, NodeUpserts(file.nodes)), EdgeUpserts(file.edges))
  }

  /** The file parses: JSON wrote no null for a number. */
  predicate Parses(file: Snapshot) {
    && (forall i :: 0 <= i < |file.nodes| ==> NodeEncodable(file.nodes[i]))
    && (forall i :: 0 <= i < |file.edges| ==> EdgeEncodable(file.edges[i]))
  }

  /** The file parses exactly when the graph it stands for can be encoded. */
  predicate Honest(file: Snapshot) {
    Parses(file) <==> GraphEncodable(GraphOf(file))
  }

  lemma ParsedIsHonest(file: Snapshot)
    ensures Parses(file) ==> GraphEncodable(GraphOf(file))
  {
    if Parses(file) {
      ReplayEncodable(EMPTY, NodeUpserts(file.nodes));
      ReplayEncodable(Replay(EMPTY, NodeUpserts(file.nodes)), EdgeUpserts(file.edges));
    }
  }

  /** `values` lists the values of `m`, each once, in the order of `keys`. */
  ghost predicate Lists<T>(m: map<string, T>, keys: seq<string>, values: seq<T>) {
    && |keys| == |values|
    && (forall i, j :: 0 <= i < j < |keys| ==> keys[i] != keys[j])
    && (forall k :: k in m <==> k in keys)
    && (forall i :: 0 <= i < |keys| ==> m[keys[i]] == values[i])
  }

  method Values<T>(m: map<string, T>) returns (values: seq<T>, ghost keys: seq<string>)
    ensures Lists(m, keys, values)
  {
    values, keys := [], [];
    var todo := m.Keys;
    while todo != {}
      invariant todo <= m.Keys && forall k :: k in m <==> k in keys || k in todo
      invariant |keys| == |values| && forall k :: k in keys ==> k !in todo
      invariant forall i, j :: 0 <= i < j < |keys| ==> keys[i] != keys[j]
      invariant forall i :: 0 <= i < |keys| ==> keys[i] in m && m[keys[i]] == values[i]
      decreases |todo|
    {
      var k :| k in todo;
      todo := todo - {k};
      values, keys := values + [m[k]], keys + [k];
    }
  }

  function Listed<T>(m: map<string, T>, keys: seq<string>): map<string, T> {
    map k | k in m && k in keys :: m[k]
  }

  lemma ListOneMore<T>(m: map<string, T>, keys: seq<string>, values: seq<T>, i: nat)
    requires Lists(m, keys, values) && i < |keys|
    ensures Listed(m, keys[..i])[keys[i] := values[i]] == Listed(m, keys[..i + 1])
  {
    assert keys[..i + 1] == keys[..i] + [keys[i]];
    assert keys[i] in keys;
  }

  lemma {:induction false} NodesLoad(g: Graph, keys: seq<string>, nodes: seq<Node>, i: nat)
    requires Keyed(g) && Lists(g.nodes, keys, nodes) && i <= |nodes|
    ensures Replay(EMPTY, NodeUpserts(nodes[..i])) == Graph(Listed(g.nodes, keys[..i]), map[])
  {
    if i > 0 {
      NodesLoad(g, keys, nodes, i - 1);
      ListOneMore(g.nodes, keys, nodes, i - 1);
      assert keys[i - 1] in keys;
      assert NodeUpserts(nodes[..i]) == NodeUpserts(nodes[..i - 1]) + [UpsertNode(nodes[i - 1])];
      ReplaySnoc(EMPTY, NodeUpserts(nodes[..i - 1]), UpsertNode(nodes[i - 1]));
    }
  }

  lemma {:induction false} EdgesLoad(g: Graph, keys: seq<string>, edges: seq<Edge>, i: nat)
    requires Keyed(g) && Lists(g.edges, keys, edges) && i <= |edges|
    ensures Replay(Graph(g.nodes, map[]), EdgeUpserts(edges[..i])) == Graph(g.nodes, Listed(g.edges, keys[..i]))
  {
    if i > 0 {
      EdgesLoad(g, keys, edges, i - 1);
      ListOneMore(g.edges, keys, edges, i - 1);
      assert keys[i - 1] in keys;
      assert EdgeUpserts(edges[..i]) == EdgeUpserts(edges[..i - 1]) + [UpsertEdge(edges[i - 1])];
      ReplaySnoc(Graph(g.nodes, map[]), EdgeUpserts(edges[..i - 1]), UpsertEdge(edges[i - 1]));
    }
  }

  lemma ListedAll<T>(m: map<string, T>, keys: seq<string>, values: seq<T>)
    requires Lists(m, keys, values)
    ensures Listed(m, keys) == m
  {
  }

  /** A snapshot written in any order loads back as the graph it was taken from. */
  lemma SnapshotRoundTrip(g: Graph, file: Snapshot, nodeKeys: seq<string>, edgeKeys: seq<string>)
    requires Keyed(g) && Lists(g.nodes, nodeKeys, file.nodes) && Lists(g.edges, edgeKeys, file.edges)
    ensures GraphOf(file) == g
  {
    NodesLoad(g, nodeKeys, file.nodes, |file.nodes|);
    EdgesLoad(g, edgeKeys, file.edges, |file.edges|);
    assert file.nodes[..|file.nodes|] == file.nodes && file.edges[..|file.edges|] == file.edges;
    assert nodeKeys[..|nodeKeys|] == nodeKeys && edgeKeys[..|edgeKeys|] == edgeKeys;
    ListedAll(g.nodes, nodeKeys, file.nodes);
    ListedAll(g.edges, edgeKeys, file.edges);
  }

  /** A snapshot parses exactly when everything in the graph it was taken from can be encoded. */
  lemma SnapshotParsesIff(g: Graph, file: Snapshot, nodeKeys: seq<string>, edgeKeys: seq<string>)
    requires Lists(g.nodes, nodeKeys, file.nodes) && Lists(g.edges, edgeKeys, file.edges)
    ensures Parses(file) <==> GraphEncodable(g)
  {
    if Parses(file) {
      forall k | k in g.nodes ensures NodeEncodable(g.nodes[k]) {
        var i :| 0 <= i < |nodeKeys| && nodeKeys[i] == k;
      }
      forall k | k in g.edges ensures EdgeEncodable(g.edges[k]) {
        var i :| 0 <= i < |edgeKeys| && edgeKeys[i] == k;
      }
    } else if GraphEncodable(g) {
      forall i | 0 <= i < |file.nodes| ensures NodeEncodable(file.nodes[i]) {
        assert nodeKeys[i] in nodeKeys;
      }
      forall i | 0 <= i < |file.edges| ensures EdgeEncodable(file.edges[i]) {
        assert edgeKeys[i] in edgeKeys;
      }
    }
  }

  // ---- neighbourhood search over the indexes ----

  /** The edges the indexes list for a node are the incident ones, self-loops twice. */
  method IncidentEdges(g: Graph, outAdj: Adjacency, inAdj: Adjacency, id: NodeId) returns (out: seq<EdgeId>)
    requires AdjacencyExact(g.edges, outAdj, true) && AdjacencyExact(g.edges, inAdj, false)
    ensures forall k :: k in out <==> k in g.edges && Incident(g.edges[k], id)
  {
    assert ListExact(g.edges, ListAt(outAdj, id), true, id) && ListExact(g.edges, ListAt(inAdj, id), false, id);
    out := ListAt(outAdj, id);
    out := out + ListAt(inAdj, id);
  }

  datatype Expansion = Expansion(nodes: set<NodeId>, edges: set<EdgeId>, distance: Distances)

  /** Exact distances; the nodes that exist among them; allowed edges with both ends recorded, and
      all of those with an end closer than the depth unless the cap was hit. */
  ghost predicate ExactExpansion(g: Graph, q: Query, r: Expansion) {
    && ExactSearch(g, q, r.distance)
    && r.nodes == r.distance.Keys * g.nodes.Keys
    && Taken(g, q, r.distance, r.edges) && EndsIn(g, r.distance, r.edges)
    && (|r.distance| < q.maxNodes ==>
          forall k :: k in r.edges <==> k in g.edges && Allowed(q, g.edges[k]) && Near(g, q, r.distance, k))
  }

  lemma ExpansionIsExact(g: Graph, q: Query, balls: seq<set<NodeId>>, dist: Distances, finished: set<NodeId>,
                         taken: set<EdgeId>, level: nat)
    requires AreBalls(g, q, balls) && Recorded(balls, dist) && LiveSeeds(g, q) <= dist.Keys
    requires Frontier(q.depth, dist, [], {}, finished, level) && Taken(g, q, dist, taken)
    requires |dist| < q.maxNodes ==> AllTook(g, q, finished, taken) && EndsIn(g, dist, taken)
    requires |dist| <= q.maxNodes || |dist| <= |LiveSeeds(g, q)|
    requires Nearest(balls, dist)
    ensures ExactExpansion(g, q, Expansion(dist.Keys * g.nodes.Keys, Kept(g, dist, taken), dist))
  {
    SearchFinished(g, q, balls, dist, finished, taken, level);
    KeptEdges(g, q, dist, finished, taken, level);
  }

  /** The seeds that have a node are at distance 0 and nothing else is; edges are of the types asked for. */
  lemma ExpansionInPlainTerms(g: Graph, q: Query, r: Expansion)
    requires ExactExpansion(g, q, r)
    ensures forall v :: v in q.seeds && v in g.nodes ==> v in r.distance && r.distance[v] == 0
    ensures forall v :: v in r.distance && r.distance[v] == 0 ==> v in q.seeds && v in g.nodes
    ensures forall k :: k in r.edges ==>
      k in g.edges && g.edges[k].from in r.distance && g.edges[k].to in r.distance
      && (q.types.Some? ==> g.edges[k].etype in q.types.value)
  {
    forall v | v in q.seeds && v in g.nodes ensures v in r.distance && r.distance[v] == 0 {
      assert v in LiveSeeds(g, q);
      ZeroHopsIff(g, q, v, r.distance[v]);
    }
    forall v | v in r.distance && r.distance[v] == 0 ensures v in q.seeds && v in g.nodes {
      ZeroHopsIff(g, q, v, 0);
    }
    TypesAskedFor(g, q, r.distance, r.edges);
  }

  lemma TypesAskedFor(g: Graph, q: Query, dist: Distances, taken: set<EdgeId>)
    requires Taken(g, q, dist, taken)
    ensures forall k :: k in taken ==> k in g.edges && (q.types.Some? ==> g.edges[k].etype in q.types.value)
  {
    forall k | k in taken ensures k in g.edges && (q.types.Some? ==> g.edges[k].etype in q.types.value) {
      assert Takeable(g, q, dist, k);
    }
  }

  /** What holds between two nodes of the search. */
  ghost predicate Searching(g: Graph, q: Query, balls: seq<set<NodeId>>, dist: Distances, queue: seq<NodeId>,
                            finished: set<NodeId>, taken: set<EdgeId>, level: nat)
  {
    && Frontier(q.depth, dist, queue, {}, finished, level)
    && Recorded(balls, dist) && Nearest(balls, dist)
    && LiveSeeds(g, q) <= dist.Keys && dist.Keys <= Ids(g) && Taken(g, q, dist, taken)
    && (|dist| < q.maxNodes ==> AllTook(g, q, finished, taken) && EndsIn(g, dist, taken))
    && (|dist| <= q.maxNodes || |dist| <= |LiveSeeds(g, q)|)
  }

  method Search(g: Graph, outAdj: Adjacency, inAdj: Adjacency, q: Query) returns (r: Expansion)
    requires AdjacencyExact(g.edges, outAdj, true) && AdjacencyExact(g.edges, inAdj, false)
    ensures ExactExpansion(g, q, r)
  {
    ghost var balls := seq(q.depth + 1, d requires 0 <= d <= q.depth => Ball(g, q, d));
    var distance, queue := SeedQueue(g, q);
    var taken: set<EdgeId> := {};
    ghost var finished: set<NodeId>, level := {}, 0;
    SeedsAreSearching(g, q, balls, distance, queue);
    while queue != []
      invariant Searching(g, q, balls, distance, queue, finished, taken, level)
      decreases Ids(g) - distance.Keys, |queue|
    {
      distance, queue, taken, finished, level :=
        SearchNext(g, outAdj, inAdj, q, distance, queue, taken, balls, finished, level);
    }
    ExpansionIsExact(g, q, balls, distance, finished, taken, level);
    r := Expansion(distance.Keys * g.nodes.Keys, Kept(g, distance, taken), distance);
  }

  lemma SeedsAreSearching(g: Graph, q: Query, balls: seq<set<NodeId>>, dist: Distances, queue: seq<NodeId>)
    requires AreBalls(g, q, balls) && dist.Keys == LiveSeeds(g, q) && |dist| == |LiveSeeds(g, q)|
    requires (forall v :: v in dist ==> dist[v] == 0) && (forall v :: v in queue <==> v in dist)
    ensures Searching(g, q, balls, dist, queue, {}, {}, 0)
  {
    assert balls[0] == Ball(g, q, 0);
  }

  /** Take the next node off the queue and expand it, unless it is at full depth or the cap is hit. */
  method SearchNext(g: Graph, outAdj: Adjacency, inAdj: Adjacency, q: Query, before: Distances, waiting: seq<NodeId>,
                    takenBefore: set<EdgeId>, ghost balls: seq<set<NodeId>>, ghost done: set<NodeId>, ghost at: nat)
    returns (distance: Distances, queue: seq<NodeId>, taken: set<EdgeId>, ghost finished: set<NodeId>, ghost level: nat)
    requires AdjacencyExact(g.edges, outAdj, true) && AdjacencyExact(g.edges, inAdj, false)
    requires AreBalls(g, q, balls) && waiting != [] && Searching(g, q, balls, before, waiting, done, takenBefore, at)
    ensures Searching(g, q, balls, distance, queue, finished, taken, level)
    ensures before.Keys < distance.Keys || (distance == before && |queue| < |waiting|)
  {
    var current := waiting[0];
    PopKeepsFrontier(q.depth, before, waiting, done, at);
    distance, queue, taken := before, waiting[1..], takenBefore;
    finished, level := done, before[current];
    FinishKeepsFrontier(q.depth, distance, queue, current, done, level);
    if distance[current] < q.depth {
      finished := done + {current};
      if |distance| < q.maxNodes {
        var incident := IncidentEdges(g, outAdj, inAdj, current);
        distance, queue, taken := ExpandNode(g, q, current, incident, distance, queue, taken, balls, level, done);
        CurrentTook(g, q, current, incident, done, taken);
        ExpandedIsSearching(g, q, balls, current, level, done, distance, queue, taken);
      }
    }
  }

  lemma ExpandedIsSearching(g: Graph, q: Query, balls: seq<set<NodeId>>, current: NodeId, level: nat, done: set<NodeId>,
                            dist: Distances, queue: seq<NodeId>, taken: set<EdgeId>)
    requires Expanding(g, q, balls, current, level, done, dist, queue, taken) && AllTook(g, q, done + {current}, taken)
    ensures Searching(g, q, balls, dist, queue, done + {current}, taken, level)
  {
    FinishKeepsFrontier(q.depth, dist, queue, current, done, level);
  }

  // ---- the store ----

  class Store {
    var nodes: map<NodeId, Node>
    var edges: map<EdgeId, Edge>
    var outAdj: Adjacency
    var inAdj: Adjacency
    var labelIndex: Labels
    var snapshotFile: Snapshot
    var since: nat
    const wal: Wal<Mutation>

    /** The indexes are exact, and the snapshot file opens exactly when it should. */
    ghost predicate Valid()
      reads this
    {
      Exact() && Honest(snapshotFile)
    }

    /** Every index holds exactly what a full scan would give. */
    ghost predicate Exact()
      reads this
    {
      && Keyed(View())
      && AdjacencyExact(edges, outAdj, true)
      && AdjacencyExact(edges, inAdj, false)
      && LabelsExact(nodes, labelIndex)
    }

    function View(): Graph
      reads this
    {
      Graph(nodes, edges)
    }

    /** This store between calls, as a state of the crash machine. */
    ghost function Now(): World
      reads this, wal
    {
      World(Disk(GraphOf(snapshotFile), wal.file), Up(View(), since, Ready))
    }

    constructor Blank(wal: Wal<Mutation>, file: Snapshot)
      requires Honest(file)
      ensures Valid() && View() == EMPTY && since == 0 && this.wal == wal && snapshotFile == file
    {
      nodes, edges, outAdj, inAdj, labelIndex := map[], map[], map[], map[], map[];
      snapshotFile, since := file, 0;
      this.wal := wal;
    }

    /** Load the snapshot, replay the log, and keep the log open for appends. */
    static method Open(codec: MutationCodec, file: Snapshot, walBytes: Bytes) returns (store: Option<Store>)
      ensures store.None? <==> !Parses(file) || Read(codec, walBytes).Unreadable?
      ensures Honest(file) ==> (store.None? <==> Recover(codec, Disk(GraphOf(file), walBytes)).None?)
      ensures store.Some? ==> fresh(store.value) && fresh(store.value.wal) && store.value.wal.codec == codec
      ensures store.Some? ==>
        store.value.Valid() && Recover(codec, Disk(GraphOf(file), walBytes)).Some? &&
        store.value.Now() ==
          Next(codec, SNAPSHOT_EVERY, World(Disk(GraphOf(file), walBytes), Down), Reopen)
    {
      var wal := new Wal(codec, walBytes);
      ParsedIsHonest(file);
      if !Parses(file) {
        return None;
      }
      var s := new Store.Blank(wal, file);
      s.LoadSnapshot();
      var log := ReadWal(codec, walBytes);
      if log.Unreadable? {
        return None;
      }
      s.ReplayLog(log.records);
      ReopenIs(codec, SNAPSHOT_EVERY, Disk(GraphOf(file), walBytes), s.View());
      return Some(s);
    }

    method LoadSnapshot()
      requires Exact() && View() == EMPTY
      modifies this`nodes, this`edges, this`outAdj, this`inAdj, this`labelIndex
      ensures Exact() && View() == GraphOf(snapshotFile)
    {
      var ns, es := snapshotFile.nodes, snapshotFile.edges;
      for i := 0 to |ns|
        invariant Exact() && View() == Replay(EMPTY, NodeUpserts(ns[..i]))
      {
        PutNode(ns[i]);
        assert NodeUpserts(ns[..i + 1]) == NodeUpserts(ns[..i]) + [Mutation.UpsertNode(ns[i])];
        ReplaySnoc(EMPTY, NodeUpserts(ns[..i]), Mutation.UpsertNode(ns[i]));
      }
      assert ns[..|ns|] == ns && es[..|es|] == es;
      ghost var half := View();
      for i := 0 to |es|
        invariant Exact() && View() == Replay(half, EdgeUpserts(es[..i]))
      {
        PutEdge(es[i]);
        assert EdgeUpserts(es[..i + 1]) == EdgeUpserts(es[..i]) + [Mutation.UpsertEdge(es[i])];
        ReplaySnoc(half, EdgeUpserts(es[..i]), Mutation.UpsertEdge(es[i]));
      }
    }

    method ReplayLog(rs: seq<Mutation>)
      requires Exact()
      modifies this`nodes, this`edges, this`outAdj, this`inAdj, this`labelIndex
      ensures Exact() && View() == Replay(old(View()), rs)
    {
      for i := 0 to |rs|
        invariant Exact() && View() == Replay(old(View()), rs[..i])
      {
        ApplyInMemory(rs[i]);
        assert rs[..i + 1] == rs[..i] + [rs[i]];
        ReplaySnoc(old(View()), rs[..i], rs[i]);
      }
      assert rs[..|rs|] == rs;
    }

    // ---- public mutations: log first, then memory ----

    method UpsertNode(node: Node)
      requires Valid()
      modifies this, wal
      ensures Valid() && Called(old(Now()), Mutation.UpsertNode(node), Now())
      ensures nodes == old(nodes)[node.id := node] && edges == old(edges)
    {
      Mutate(Mutation.UpsertNode(node));
    }

    method UpsertEdge(e: Edge) returns (id: EdgeId)
      requires Valid()
      modifies this, wal
      ensures id == if IsBlank(e.id) then e.from + [SOH] + e.etype + [SOH] + e.to else e.id
      ensures nodes == old(nodes) && edges == old(edges)[id := e.(id := id)]
      ensures Valid() && Called(old(Now()), Mutation.UpsertEdge(e.(id := id)), Now())
    {
      id := EffectiveId(e);
      Mutate(Mutation.UpsertEdge(e.(id := id)));
    }

    method DeleteNode(id: NodeId)
      requires Valid()
      modifies this, wal
      ensures Valid() && Called(old(Now()), Mutation.DeleteNode(id), Now())
      ensures nodes == old(nodes) - {id}
      ensures forall k :: k in edges <==> k in old(edges) && old(edges)[k].from != id && old(edges)[k].to != id
      ensures forall k :: k in edges ==> edges[k] == old(edges)[k]
    {
      Mutate(Mutation.DeleteNode(id));
    }

    method DeleteEdge(id: EdgeId)
      requires Valid()
      modifies this, wal
      ensures Valid() && Called(old(Now()), Mutation.DeleteEdge(id), Now())
      ensures nodes == old(nodes) && edges == old(edges) - {id}
    {
      Mutate(Mutation.DeleteEdge(id));
    }

    /** `after` is where the crash machine stands once a whole call for `m` has run from `before`. */
    ghost predicate Called(before: World, m: Mutation, after: World)
      requires before.process.Up? && before.process.phase.Ready?
    {
      Possible(wal.codec, SNAPSHOT_EVERY, before, CallEvents(before, SNAPSHOT_EVERY, m)) &&
      after == After(wal.codec, SNAPSHOT_EVERY, before, CallEvents(before, SNAPSHOT_EVERY, m))
    }

    method Mutate(m: Mutation)
      requires Valid()
      modifies this, wal
      ensures Valid() && Called(old(Now()), m, Now())
      ensures View() == Apply(old(View()), m)
    {
      ghost var before := Now();
      wal.Append(m);
      ApplyInMemory(m);
      MaybeSnapshot();
      assert Now() == CallOutcome(wal.codec, SNAPSHOT_EVERY, before, m);
      CallRuns(wal.codec, SNAPSHOT_EVERY, before, m);
    }

    method MaybeSnapshot()
      requires Valid()
      modifies this`since, this`snapshotFile, wal
      ensures Honest(snapshotFile)
      ensures old(since) + 1 < SNAPSHOT_EVERY ==>
        since == old(since) + 1 && snapshotFile == old(snapshotFile) && wal.file == old(wal.file)
      ensures old(since) + 1 >= SNAPSHOT_EVERY ==>
        since == 0 && GraphOf(snapshotFile) == View() && wal.file == []
    {
      since := since + 1;
      if since >= SNAPSHOT_EVERY {
        TakeSnapshot();
      }
    }

    method TakeSnapshot()
      requires Exact()
      modifies this`since, this`snapshotFile, wal
      ensures since == 0 && GraphOf(snapshotFile) == View() && wal.file == []
      ensures Honest(snapshotFile)
    {
      var ns, nodeKeys := Values(nodes);
      var es, edgeKeys := Values(edges);
      snapshotFile := Snapshot(ns, es);
      SnapshotRoundTrip(View(), snapshotFile, nodeKeys, edgeKeys);
      SnapshotParsesIff(View(), snapshotFile, nodeKeys, edgeKeys);
      wal.Truncate();
      since := 0;
    }

    // ---- reads ----

    /** The label index answers like a scan of all nodes. */
    method ByLabel(name: string) returns (found: set<NodeId>)
      requires Exact()
      ensures forall n :: n in found <==> n in nodes && name in nodes[n].labels
    {
      found := if name in labelIndex then set n | n in labelIndex[name] && n in nodes else {};
      assert forall n :: n in found <==> Labelled(labelIndex, name, n) && n in nodes;
    }

    // ---- neighbourhood expansion ----

    /** Breadth-first expansion from the seeds that have a node. */
    method Expand(q: Query) returns (r: Expansion)
      requires Exact()
      ensures ExactExpansion(View(), q, r)
      ensures forall v :: v in q.seeds && v in nodes ==> v in r.distance && r.distance[v] == 0
      ensures forall v :: v in r.distance && r.distance[v] == 0 ==> v in q.seeds && v in nodes
      ensures forall k :: k in r.edges ==>
        k in edges && edges[k].from in r.distance && edges[k].to in r.distance
        && (q.types.Some? ==> edges[k].etype in q.types.value)
    {
      r := Search(View(), outAdj, inAdj, q);
      ExpansionInPlainTerms(View(), q, r);
    }

    // ---- memory and indexes ----

    method ApplyInMemory(m: Mutation)
      requires Exact()
      modifies this`nodes, this`edges, this`outAdj, this`inAdj, this`labelIndex
      ensures Exact() && View() == Apply(old(View()), m)
    {
      match m
      case UpsertNode(node) => PutNode(node);
      case UpsertEdge(e) => PutEdge(e);
      case DeleteNode(id) => RemoveNode(id);
      case DeleteEdge(id) => RemoveEdge(id);
    }

    method Unlabel(id: NodeId, labels: seq<string>)
      modifies this`labelIndex
      ensures labelIndex.Keys == old(labelIndex).Keys
      ensures forall l, n :: Labelled(labelIndex, l, n) <==>
                             Labelled(old(labelIndex), l, n) && !(n == id && l in labels)
    {
      for i := 0 to |labels|
        invariant labelIndex.Keys == old(labelIndex).Keys
        invariant forall l, n :: Labelled(labelIndex, l, n) <==>
                                 Labelled(old(labelIndex), l, n) && !(n == id && l in labels[..i])
      {
        var l := labels[i];
        if l in labelIndex {
          labelIndex := labelIndex[l := labelIndex[l] - {id}];
        }
        assert labels[..i + 1] == labels[..i] + [l];
      }
      assert labels[..|labels|] == labels;
    }

    method AddLabels(id: NodeId, labels: seq<string>)
      modifies this`labelIndex
      ensures forall l, n :: Labelled(labelIndex, l, n) <==>
                             Labelled(old(labelIndex), l, n) || (n == id && l in labels)
    {
      for i := 0 to |labels|
        invariant forall l, n :: Labelled(labelIndex, l, n) <==>
                                 Labelled(old(labelIndex), l, n) || (n == id && l in labels[..i])
      {
        var l := labels[i];
        labelIndex := labelIndex[l := (if l in labelIndex then labelIndex[l] else {}) + {id}];
        assert labels[..i + 1] == labels[..i] + [l];
      }
      assert labels[..|labels|] == labels;
    }

    method PutNode(node: Node)
      requires Exact()
      modifies this`nodes, this`labelIndex
      ensures Exact() && View() == Apply(old(View()), Mutation.UpsertNode(node))
    {
      if node.id in nodes {
        Unlabel(node.id, nodes[node.id].labels);
      }
      AddLabels(node.id, node.labels);
      nodes := nodes[node.id := node];
    }

    method PutEdge(e: Edge)
      requires Exact()
      modifies this`edges, this`outAdj, this`inAdj
      ensures Exact() && View() == Apply(old(View()), Mutation.UpsertEdge(e))
    {
      if e.id in edges {
        var prior := edges[e.id];
        DetachExact(edges, outAdj, true, e.id);
        DetachExact(edges, inAdj, false, e.id);
        outAdj := Detach(outAdj, prior.from, prior.id);
        inAdj := Detach(inAdj, prior.to, prior.id);
      } else {
        assert edges - {e.id} == edges;
      }
      AttachExact(edges - {e.id}, outAdj, true, e);
      AttachExact(edges - {e.id}, inAdj, false, e);
      outAdj := Attach(outAdj, e.from, e.id);
      inAdj := Attach(inAdj, e.to, e.id);
      assert (edges - {e.id})[e.id := e] == edges[e.id := e];
      edges := edges[e.id := e];
    }

    method RemoveEdge(id: EdgeId)
      requires Exact()
      modifies this`edges, this`outAdj, this`inAdj
      ensures Exact() && View() == Apply(old(View()), Mutation.DeleteEdge(id))
    {
      if id in edges {
        var e := edges[id];
        DetachExact(edges, outAdj, true, id);
        DetachExact(edges, inAdj, false, id);
        edges := edges - {id};
        outAdj := Detach(outAdj, e.from, id);
        inAdj := Detach(inAdj, e.to, id);
      } else {
        assert edges - {id} == edges;
      }
    }

    /** Deleting through the indexes deletes every incident edge a scan would find. */
    method RemoveNode(id: NodeId)
      requires Exact()
      modifies this`nodes, this`edges, this`outAdj, this`inAdj, this`labelIndex
      ensures Exact() && View() == Apply(old(View()), Mutation.DeleteNode(id))
    {
      if id in nodes {
        var node := nodes[id];
        nodes := nodes - {id};
        Unlabel(id, node.labels);
      } else {
        assert nodes - {id} == nodes;
      }
      RemoveIncident(id);
    }

    method RemoveIncident(id: NodeId)
      requires Exact()
      modifies this`edges, this`outAdj, this`inAdj
      ensures Exact()
      ensures edges == map k | k in old(edges) && !Incident(old(edges)[k], id) :: old(edges)[k]
    {
      ghost var all := edges;
      var incident := IncidentEdges(View(), outAdj, inAdj, id);
      for i := 0 to |incident|
        invariant Exact()
        invariant edges == Except(all, incident[..i])
      {
        RemoveEdge(incident[i]);
        ExceptOneMore(all, incident, i);
      }
      ExceptIncident(all, incident, id);
      DropKeyExact(edges, outAdj, true, id);
      DropKeyExact(edges, inAdj, false, id);
      outAdj := outAdj - {id};
      inAdj := inAdj - {id};
    }
  }

  function Except(edges: map<EdgeId, Edge>, ks: seq<EdgeId>): map<EdgeId, Edge> {
    map k | k in edges && k !in ks :: edges[k]
  }

  lemma ExceptOneMore(edges: map<EdgeId, Edge>, ks: seq<EdgeId>, i: nat)
    requires i < |ks|
    ensures Except(edges, ks[..i + 1]) == Except(edges, ks[..i]) - {ks[i]}
  {
    assert ks[..i + 1] == ks[..i] + [ks[i]];
  }

  lemma ExceptIncident(edges: map<EdgeId, Edge>, ks: seq<EdgeId>, id: NodeId)
    requires forall k :: k in ks <==> k in edges && Incident(edges[k], id)
    ensures Except(edges, ks[..|ks|]) == map k | k in edges && !Incident(edges[k], id) :: edges[k]
  {
    assert ks[..|ks|] == ks;
  }

  lemma DropKeyExact(edges: map<EdgeId, Edge>, adj: Adjacency, outgoing: bool, n: NodeId)
    requires AdjacencyExact(edges, adj, outgoing) && forall k :: k in edges ==> End(edges[k], outgoing) != n
    ensures AdjacencyExact(edges, adj - {n}, outgoing)
  {
    forall x ensures ListExact(edges, ListAt(adj - {n}, x), outgoing, x) {
      assert ListExact(edges, ListAt(adj, x), outgoing, x);
      assert ListAt(adj - {n}, x) == if x == n then [] else ListAt(adj, x);
    }
  }
}
