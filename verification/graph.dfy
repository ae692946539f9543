/** The graph the cascade runs on: a node enumeration, adjacency lists,
    optional edge weights and the two per-node float attributes the engine
    reads (`activity`) and mutates (`influence`). Attributes that a node does
    not carry are simply absent from the maps. */
module Graphs {

  type Node = int

  datatype Graph = Graph(
    nodes: seq<Node>,                 // enumeration order of graph.nodes()
    adj: map<Node, seq<Node>>,        // enumeration order of graph.neighbors(u)
    weight: map<(Node, Node), real>,  // edges that carry a "weight" attribute
    activity: map<Node, real>,
    influence: map<Node, real>)

  predicate Distinct<T(==)>(s: seq<T>) {
    forall i, j :: 0 <= i < j < |s| ==> s[i] != s[j]
  }

  predicate Adjacent(g: Graph, u: Node, v: Node) {
    u in g.adj && v in g.adj[u]
  }

  /** What a networkx graph guarantees: unique nodes, one adjacency list per
      node, neighbours that are nodes, and no neighbour listed twice. */
  ghost predicate WellFormed(g: Graph) {
    && Distinct(g.nodes)
    && (forall u :: u in g.adj <==> u in g.nodes)
    && (forall u, v :: Adjacent(g, u, v) ==> v in g.nodes)
    && (forall u :: u in g.adj ==> Distinct(g.adj[u]))
  }

  function NodeSet(g: Graph): set<Node> {
    set u | u in g.nodes
  }

  function Neighbours(g: Graph, u: Node): seq<Node>
    requires u in g.adj
  {
    g.adj[u]
  }

  /** `d.get(key, default)` on a per-node float attribute. */
  function Lookup(m: map<Node, real>, u: Node, default: real): real {
    if u in m then m[u] else default
  }

  /** `float(graph.edges[u, v].get("weight", 1.0))` */
  function EdgeWeight(g: Graph, u: Node, v: Node): real {
    if (u, v) in g.weight then g.weight[(u, v)] else 1.0
  }

  /** `xs` visits every element of `s` exactly once. */
  predicate Listing(xs: seq<Node>, s: set<Node>) {
    && Distinct(xs)
    && (forall v :: v in xs ==> v in s)
    && (forall v :: v in s ==> v in xs)
  }

  /** A listing of a set is as long as the set is large. */
  lemma ListingLength(xs: seq<Node>, s: set<Node>)
    requires Listing(xs, s)
    ensures |xs| == |s|
  {
    DistinctCardinality(xs);
    var elems := set v | v in xs;
    assert elems == s by {
      forall v | v in s ensures v in elems {
        assert v in xs;
      }
      forall v | v in elems ensures v in s {
        assert v in xs;
      }
    }
  }

  /** A subset is no larger than its superset. */
  lemma SubsetSize(a: set<Node>, b: set<Node>)
    requires a <= b
    ensures |a| <= |b|
  {
    assert b == a + (b - a);
  }

  lemma {:induction false} DistinctCardinality<T>(s: seq<T>)
    requires Distinct(s)
    ensures |set x | x in s| == |s|
  {
    if s != [] {
      assert Distinct(s[1..]);
      DistinctCardinality(s[1..]);
      var tail := set x | x in s[1..];
      assert (set x | x in s) == {s[0]} + tail;
      assert s[0] !in tail;
    }
  }
}
