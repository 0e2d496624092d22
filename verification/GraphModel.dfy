/** The property graph as a value: nodes, edges, the four durable mutations, and
    what replaying a log of them does.  The central fact is that a log may be
    replayed on a graph that already contains it. */
module GraphModel {
  import opened Text

  type NodeId = string
  type EdgeId = string

  /** The bit pattern of a 32-bit float; the store never computes with it. */
  type Float32 = bits: int | 0 <= bits < 0x1_0000_0000

  /** `props` holds free-form values the store never inspects. */
  datatype Node = Node(id: NodeId, labels: seq<string>, props: map<string, string>, embedding: Option<seq<Float32>>)

  datatype Edge = Edge(id: EdgeId, from: NodeId, to: NodeId, etype: string, props: map<string, string>, weight: Float32)

  datatype Mutation =
    | UpsertNode(node: Node)
    | UpsertEdge(edge: Edge)
    | DeleteNode(nodeId: NodeId)
    | DeleteEdge(edgeId: EdgeId)

  datatype Graph = Graph(nodes: map<NodeId, Node>, edges: map<EdgeId, Edge>)

  const EMPTY: Graph := Graph(map[], map[])

  // ---- edge ids ----

  const SOH: char := '\U{1}'

  function DerivedId(e: Edge): EdgeId {
    e.from + [SOH] + e.etype + [SOH] + e.to
  }

  function EffectiveId(e: Edge): EdgeId {
    if IsBlank(e.id) then DerivedId(e) else e.id
  }

  /** A caller's id is kept, a blank one becomes the relationship triple; and resolving is final:
      the logged edge resolves to the id it already has. */
  lemma EffectiveIdIsStable(e: Edge)
    ensures (exists i :: 0 <= i < |e.id| && !IsWhitespace(e.id[i])) ==> EffectiveId(e) == e.id
    ensures (forall i :: 0 <= i < |e.id| ==> IsWhitespace(e.id[i])) ==>
              EffectiveId(e) == e.from + [SOH] + e.etype + [SOH] + e.to
    ensures EffectiveId(e.(id := EffectiveId(e))) == EffectiveId(e)
    ensures !IsBlank(EffectiveId(e))
  {
    if IsBlank(e.id) {
      var d := DerivedId(e);
      assert d[|e.from|] == SOH && !IsWhitespace(SOH);
    }
  }

  /** Two relations without the separator in their source or type share a derived id
      exactly when they are the same relation. */
  lemma DerivedIdIdentifiesRelation(e: Edge, f: Edge)
    requires SOH !in e.from && SOH !in e.etype && SOH !in f.from && SOH !in f.etype
    ensures DerivedId(e) == DerivedId(f) <==> e.from == f.from && e.etype == f.etype && e.to == f.to
  {
    if DerivedId(e) == DerivedId(f) {
      var restE, restF := e.etype + [SOH] + e.to, f.etype + [SOH] + f.to;
      assert DerivedId(e) == e.from + [SOH] + restE && DerivedId(f) == f.from + [SOH] + restF;
      SplitAtSeparator(e.from, restE, f.from, restF);
      SplitAtSeparator(e.etype, e.to, f.etype, f.to);
    }
  }

  lemma SplitAtSeparator(a: string, x: string, b: string, y: string)
    requires SOH !in a && SOH !in b
    requires a + [SOH] + x == b + [SOH] + y
    ensures a == b && x == y
  {
    var s, t := a + [SOH] + x, b + [SOH] + y;
    assert s[|a|] == SOH && t[|b|] == SOH;
    assert |a| == |b|;
    assert a == s[..|a|] == b;
    assert x == s[|a| + 1..] == y;
  }

  // ---- mutations ----

  predicate Incident(e: Edge, n: NodeId) {
    e.from == n || e.to == n
  }

  function Apply(g: Graph, m: Mutation): Graph {
    match m
    case UpsertNode(n) => g.(nodes := g.nodes[n.id := n])
    case UpsertEdge(e) => g.(edges := g.edges[e.id := e])
    case DeleteNode(n) => Graph(g.nodes - {n}, map k | k in g.edges && !Incident(g.edges[k], n) :: g.edges[k])
    case DeleteEdge(k) => g.(edges := g.edges - {k})
  }

  function Replay(g: Graph, log: seq<Mutation>): Graph
    decreases |log|
  {
    if log == [] then g else Replay(Apply(g, log[0]), log[1..])
  }

  /** Every entry is stored under its own id. */
  predicate Keyed(g: Graph) {
    && (forall k :: k in g.nodes ==> g.nodes[k].id == k)
    && (forall k :: k in g.edges ==> g.edges[k].id == k)
  }

  lemma {:induction false} ReplayKeepsKeyed(g: Graph, log: seq<Mutation>)
    requires Keyed(g)
    ensures Keyed(Replay(g, log))
    decreases |log|
  {
    if log != [] {
      ReplayKeepsKeyed(Apply(g, log[0]), log[1..]);
    }
  }

  lemma {:induction false} ReplayConcat(g: Graph, a: seq<Mutation>, b: seq<Mutation>)
    ensures Replay(g, a + b) == Replay(Replay(g, a), b)
    decreases |a|
  {
    if a == [] {
      assert a + b == b;
    } else {
      assert (a + b)[1..] == a[1..] + b;
      ReplayConcat(Apply(g, a[0]), a[1..], b);
    }
  }

  lemma ReplaySnoc(g: Graph, a: seq<Mutation>, m: Mutation)
    ensures Replay(g, a + [m]) == Apply(Replay(g, a), m)
  {
    ReplayConcat(g, a, [m]);
    assert Replay(Replay(g, a), [m]) == Replay(Apply(Replay(g, a), m), []);
  }

  // ---- what JSON can hold ----

  /** Neither infinite nor NaN: the exponent bits are not all ones. */
  predicate Finite(f: Float32) {
    f / 0x80_0000 % 0x100 != 0xFF
  }

  /** Apart from the sign bit, everything below the pattern of infinity. */
  lemma FiniteIsBelowInfinity(f: Float32)
    ensures Finite(f) <==> f % 0x8000_0000 < 0x7F80_0000
  {
    var sign, rest := f / 0x8000_0000, f % 0x8000_0000;
    assert f == 0x8000_0000 * sign + rest;
    assert f / 0x80_0000 == 0x100 * sign + rest / 0x80_0000;
  }

  predicate NodeEncodable(n: Node) {
    n.embedding.Some? ==> forall i :: 0 <= i < |n.embedding.value| ==> Finite(n.embedding.value[i])
  }

  predicate EdgeEncodable(e: Edge) {
    Finite(e.weight)
  }

  /** JSON has no infinity and no NaN: they are written as null, which does not parse as a number. */
  predicate Encodable(m: Mutation) {
    match m
    case UpsertNode(n) => NodeEncodable(n)
    case UpsertEdge(e) => EdgeEncodable(e)
    case DeleteNode(_) => true
    case DeleteEdge(_) => true
  }

  /** What can be encoded, in plain terms: edges and nodes whose every float lies below infinity, and deletes. */
  lemma EncodableIff(m: Mutation)
    ensures Encodable(m) <==>
            match m
            case UpsertNode(n) =>
              n.embedding.Some? ==>
                forall i :: 0 <= i < |n.embedding.value| ==> n.embedding.value[i] % 0x8000_0000 < 0x7F80_0000
            case UpsertEdge(e) => e.weight % 0x8000_0000 < 0x7F80_0000
            case _ => true
  {
    match m
    case UpsertNode(n) =>
      if n.embedding.Some? {
        forall i | 0 <= i < |n.embedding.value|
          ensures Finite(n.embedding.value[i]) <==> n.embedding.value[i] % 0x8000_0000 < 0x7F80_0000
        {
          FiniteIsBelowInfinity(n.embedding.value[i]);
        }
      }
    case UpsertEdge(e) => FiniteIsBelowInfinity(e.weight);
    case _ =>
  }

  predicate AllEncodable(log: seq<Mutation>) {
    forall i :: 0 <= i < |log| ==> Encodable(log[i])
  }

  predicate GraphEncodable(g: Graph) {
    && (forall k :: k in g.nodes ==> NodeEncodable(g.nodes[k]))
    && (forall k :: k in g.edges ==> EdgeEncodable(g.edges[k]))
  }

  /** An unencodable mutation always leaves an unencodable graph, an encodable one keeps it encodable. */
  lemma ApplyEncodable(g: Graph, m: Mutation)
    ensures !Encodable(m) ==> !GraphEncodable(Apply(g, m))
    ensures Encodable(m) && GraphEncodable(g) ==> GraphEncodable(Apply(g, m))
  {
    if m.UpsertNode? {
      assert Apply(g, m).nodes[m.node.id] == m.node;
    } else if m.UpsertEdge? {
      assert Apply(g, m).edges[m.edge.id] == m.edge;
    }
  }

  lemma {:induction false} ReplayEncodable(g: Graph, log: seq<Mutation>)
    requires GraphEncodable(g) && AllEncodable(log)
    ensures GraphEncodable(Replay(g, log))
    decreases |log|
  {
    if log != [] {
      ApplyEncodable(g, log[0]);
      ReplayEncodable(Apply(g, log[0]), log[1..]);
    }
  }

  // ---- the log seen through one id ----

  function EdgeAt(g: Graph, k: EdgeId): Option<Edge> {
    if k in g.edges then Some(g.edges[k]) else None
  }

  function NodeAt(g: Graph, k: NodeId): Option<Node> {
    if k in g.nodes then Some(g.nodes[k]) else None
  }

  /** What one mutation does to the edge stored under `k`: overwrite it, or filter it. */
  function StepEdge(o: Option<Edge>, m: Mutation, k: EdgeId): Option<Edge> {
    match m
    case UpsertNode(_) => o
    case UpsertEdge(e) => if e.id == k then Some(e) else o
    case DeleteNode(n) => if o.Some? && Incident(o.value, n) then None else o
    case DeleteEdge(id) => if id == k then None else o
  }

  function StepNode(o: Option<Node>, m: Mutation, k: NodeId): Option<Node> {
    match m
    case UpsertNode(n) => if n.id == k then Some(n) else o
    case UpsertEdge(_) => o
    case DeleteNode(n) => if n == k then None else o
    case DeleteEdge(_) => o
  }

  function FoldEdge(o: Option<Edge>, log: seq<Mutation>, k: EdgeId): Option<Edge>
    decreases |log|
  {
    if log == [] then o else FoldEdge(StepEdge(o, log[0], k), log[1..], k)
  }

  function FoldNode(o: Option<Node>, log: seq<Mutation>, k: NodeId): Option<Node>
    decreases |log|
  {
    if log == [] then o else FoldNode(StepNode(o, log[0], k), log[1..], k)
  }

  lemma {:induction false} ReplayAt(g: Graph, log: seq<Mutation>, k: string)
    ensures EdgeAt(Replay(g, log), k) == FoldEdge(EdgeAt(g, k), log, k)
    ensures NodeAt(Replay(g, log), k) == FoldNode(NodeAt(g, k), log, k)
    decreases |log|
  {
    if log != [] {
      ReplayAt(Apply(g, log[0]), log[1..], k);
    }
  }

  predicate OverwritesEdge(log: seq<Mutation>, k: EdgeId) {
    exists i :: 0 <= i < |log| && (log[i] == DeleteEdge(k) || (log[i].UpsertEdge? && log[i].edge.id == k))
  }

  predicate OverwritesNode(log: seq<Mutation>, k: NodeId) {
    exists i :: 0 <= i < |log| && (log[i] == DeleteNode(k) || (log[i].UpsertNode? && log[i].node.id == k))
  }

  /** Through one edge id a whole log either forgets what was there, or can only drop it. */
  lemma {:induction false} EdgeFoldShape(o: Option<Edge>, p: Option<Edge>, log: seq<Mutation>, k: EdgeId)
    ensures OverwritesEdge(log, k) ==> FoldEdge(o, log, k) == FoldEdge(p, log, k)
    ensures !OverwritesEdge(log, k) ==> FoldEdge(o, log, k) == o || FoldEdge(o, log, k) == None
    ensures !OverwritesEdge(log, k) ==> FoldEdge(None, log, k) == None
    decreases |log|
  {
    if log != [] {
      EdgeFoldShape(StepEdge(o, log[0], k), StepEdge(p, log[0], k), log[1..], k);
    }
  }

  lemma {:induction false} NodeFoldShape(o: Option<Node>, p: Option<Node>, log: seq<Mutation>, k: NodeId)
    ensures FoldNode(o, log, k) == if OverwritesNode(log, k) then FoldNode(p, log, k) else o
    decreases |log|
  {
    if log != [] {
      NodeFoldShape(StepNode(o, log[0], k), StepNode(p, log[0], k), log[1..], k);
    }
  }

  // ---- what a log leaves alone ----

  /** Some record of the log deletes this node, and with it every edge at it. */
  predicate DeletesNode(log: seq<Mutation>, n: NodeId) {
    exists i :: 0 <= i < |log| && log[i].DeleteNode? && log[i].nodeId == n
  }

  lemma {:induction false} UntouchedFold(e: Edge, log: seq<Mutation>, k: EdgeId)
    requires !OverwritesEdge(log, k)
    ensures FoldEdge(Some(e), log, k) == if DeletesNode(log, e.from) || DeletesNode(log, e.to) then None else Some(e)
    decreases |log|
  {
    if log != [] {
      var rest := log[1..];
      assert forall i :: 0 <= i < |rest| ==> rest[i] == log[i + 1];
      var next := StepEdge(Some(e), log[0], k);
      if next == None {
        EdgeFoldShape(None, None, rest, k);
      } else {
        UntouchedFold(e, rest, k);
        DeletesSplit(log, e.from);
        DeletesSplit(log, e.to);
      }
    }
  }

  lemma DeletesSplit(log: seq<Mutation>, n: NodeId)
    requires log != []
    ensures DeletesNode(log, n) <==> (log[0].DeleteNode? && log[0].nodeId == n) || DeletesNode(log[1..], n)
  {
    if i :| 0 <= i < |log| && log[i].DeleteNode? && log[i].nodeId == n {
      if i > 0 {
        assert log[1..][i - 1] == log[i];
      }
    }
    if i :| 0 <= i < |log[1..]| && log[1..][i].DeleteNode? && log[1..][i].nodeId == n {
      assert log[i + 1] == log[1..][i];
    }
  }

  /** An edge whose id no record writes is still there, unchanged, exactly when no record deletes
      one of its two ends. */
  lemma EdgeSurvivesIff(g: Graph, log: seq<Mutation>, k: EdgeId)
    requires k in g.edges && !OverwritesEdge(log, k)
    ensures k in Replay(g, log).edges <==> !DeletesNode(log, g.edges[k].from) && !DeletesNode(log, g.edges[k].to)
    ensures k in Replay(g, log).edges ==> Replay(g, log).edges[k] == g.edges[k]
  {
    ReplayAt(g, log, k);
    UntouchedFold(g.edges[k], log, k);
  }

  /** A node whose id no record writes or deletes is still there, unchanged, and none appears. */
  lemma NodeSurvives(g: Graph, log: seq<Mutation>, k: NodeId)
    requires !OverwritesNode(log, k)
    ensures k in Replay(g, log).nodes <==> k in g.nodes
    ensures k in g.nodes ==> Replay(g, log).nodes[k] == g.nodes[k]
  {
    ReplayAt(g, log, k);
    NodeFoldShape(NodeAt(g, k), None, log, k);
  }

  /** The last write of an edge wins, unless a later record deletes one of its ends. */
  lemma LastEdgeWriteWins(g: Graph, before: seq<Mutation>, e: Edge, after: seq<Mutation>)
    requires !OverwritesEdge(after, e.id)
    ensures var end := Replay(g, before + [UpsertEdge(e)] + after);
            && (e.id in end.edges <==> !DeletesNode(after, e.from) && !DeletesNode(after, e.to))
            && (e.id in end.edges ==> end.edges[e.id] == e)
  {
    ReplayConcat(g, before + [UpsertEdge(e)], after);
    ReplaySnoc(g, before, UpsertEdge(e));
    EdgeSurvivesIff(Replay(g, before + [UpsertEdge(e)]), after, e.id);
  }

  /** The last write of a node wins, and after a last delete it is gone. */
  lemma LastNodeWriteWins(g: Graph, before: seq<Mutation>, m: Mutation, after: seq<Mutation>)
    requires m.UpsertNode? ==> !OverwritesNode(after, m.node.id)
    requires m.DeleteNode? ==> !OverwritesNode(after, m.nodeId)
    ensures var end := Replay(g, before + [m] + after);
            && (m.UpsertNode? ==> m.node.id in end.nodes && end.nodes[m.node.id] == m.node)
            && (m.DeleteNode? ==> m.nodeId !in end.nodes)
  {
    ReplayConcat(g, before + [m], after);
    ReplaySnoc(g, before, m);
    if m.UpsertNode? {
      NodeSurvives(Replay(g, before + [m]), after, m.node.id);
    } else if m.DeleteNode? {
      NodeSurvives(Replay(g, before + [m]), after, m.nodeId);
    }
  }

  lemma GraphExtensionality(g: Graph, h: Graph)
    requires forall k: string :: EdgeAt(g, k) == EdgeAt(h, k) && NodeAt(g, k) == NodeAt(h, k)
    ensures g == h
  {
    assert forall k: string :: (k in g.edges <==> EdgeAt(g, k).Some?) && (k in h.edges <==> EdgeAt(h, k).Some?);
    assert forall k: string :: (k in g.nodes <==> NodeAt(g, k).Some?) && (k in h.nodes <==> NodeAt(h, k).Some?);
    assert g.edges.Keys == h.edges.Keys && g.nodes.Keys == h.nodes.Keys;
    assert forall k :: k in g.edges ==> EdgeAt(g, k).value == g.edges[k] && EdgeAt(h, k).value == h.edges[k];
    assert forall k :: k in g.nodes ==> NodeAt(g, k).value == g.nodes[k] && NodeAt(h, k).value == h.nodes[k];
    assert g.edges == h.edges;
    assert g.nodes == h.nodes;
  }

  /** Log idempotence: replaying a log on a graph that already contains it changes nothing,
      cascading deletes and re-pointed edges included. */
  lemma LogIdempotent(g: Graph, log: seq<Mutation>)
    ensures Replay(Replay(g, log), log) == Replay(g, log)
  {
    var once := Replay(g, log);
    forall k: string
      ensures EdgeAt(Replay(once, log), k) == EdgeAt(once, k) && NodeAt(Replay(once, log), k) == NodeAt(once, k)
    {
      ReplayAt(g, log, k);
      ReplayAt(once, log, k);
      EdgeFoldShape(EdgeAt(g, k), EdgeAt(once, k), log, k);
      NodeFoldShape(NodeAt(g, k), NodeAt(once, k), log, k);
    }
    GraphExtensionality(Replay(once, log), once);
  }

  /** Replaying any suffix of the log is harmless too ... */
  lemma SuffixReplayHarmless(g: Graph, a: seq<Mutation>, b: seq<Mutation>)
    ensures Replay(Replay(g, a + b), b) == Replay(g, a + b)
  {
    ReplayConcat(g, a, b);
    LogIdempotent(Replay(g, a), b);
  }

  /** ... but replaying a proper prefix is not: it can roll a later write back. */
  lemma PrefixReplayRollsBack() returns (g: Graph, a: seq<Mutation>, b: seq<Mutation>)
    ensures |b| == 1 && Replay(Replay(g, a + b), a) != Replay(g, a + b)
  {
    var first, second := Node("n", ["old"], map[], None), Node("n", ["new"], map[], None);
    g, a, b := EMPTY, [UpsertNode(first)], [UpsertNode(second)];
    ReplaySnoc(g, a, b[0]);
    ReplaySnoc(g, [], a[0]);
    ReplaySnoc(Replay(g, a + b), [], a[0]);
    assert [] + a == a;
    assert Replay(g, a + b).nodes["n"] == second;
    assert Replay(Replay(g, a + b), a).nodes["n"] == first;
    assert first.labels[0] == "old" && second.labels[0] == "new";
    assert "old"[0] != "new"[0];
  }
}
