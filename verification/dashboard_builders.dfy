/** The modelled part of `build_dashboard`: build the graph, give every node
    degree-based `activity` and `influence` attributes, then run one cascade,
    its time series and the Monte Carlo ensemble, in that order, on the same
    graph. */
module DashboardBuilders {
  import opened Results
  import opened Graphs
  import opened History
  import opened Config
  import opened Randomness
  import opened CustomCascades
  import opened CascadeProperties
  import opened TimeseriesCascades
  import opened MonteCarloCascades
  import opened GraphBuilders

  /** `graph.degree(u)` of a simple undirected graph: its neighbour count. */
  function Degree(g: Graph, u: Node): nat
    requires u in g.adj
  {
    |g.adj[u]|
  }

  /** A node has no more neighbours than the graph has nodes. */
  lemma DegreeBound(g: Graph, u: Node)
    requires WellFormed(g)
    requires u in g.adj
    ensures Degree(g, u) <= |g.nodes|
  {
    var nbrs := set v | v in g.adj[u];
    DistinctCardinality(g.adj[u]);
    DistinctCardinality(g.nodes);
    assert nbrs <= NodeSet(g) by {
      forall v | v in nbrs ensures v in NodeSet(g) {
        assert Adjacent(g, u, v);
      }
    }
    SubsetSize(nbrs, NodeSet(g));
  }

  /** The largest degree among `nodes`, 0 when there are none. */
  function MaxDegreeOf(g: Graph, nodes: seq<Node>): (m: nat)
    requires forall u :: u in nodes ==> u in g.adj
    ensures forall u :: u in nodes ==> Degree(g, u) <= m
    ensures nodes != [] ==> exists u :: u in nodes && Degree(g, u) == m
    ensures nodes == [] ==> m == 0
  {
    if nodes == [] then 0
    else
      var rest := MaxDegreeOf(g, nodes[1..]);
      assert forall u :: u in nodes ==> u == nodes[0] || u in nodes[1..];
      if Degree(g, nodes[0]) >= rest then Degree(g, nodes[0]) else rest
  }

  /** `max(degrees.values()) if degrees else 1` */
  function MaxDegree(g: Graph): (m: nat)
    requires WellFormed(g)
    ensures g.nodes == [] ==> m == 1
    ensures forall u :: u in g.nodes ==> Degree(g, u) <= m
    ensures g.nodes != [] ==> exists u :: u in g.nodes && Degree(g, u) == m
  {
    if g.nodes == [] then 1 else MaxDegreeOf(g, g.nodes)
  }

  /** `degrees[node] / max_degree` */
  function Ratio(d: nat, m: nat): (r: real)
    requires m > 0
    ensures d <= m ==> 0.0 <= r <= 1.0
    ensures d == 0 ==> r == 0.0
    ensures d == m ==> r == 1.0
  {
    d as real / m as real
  }

  /** A larger degree never gives a smaller ratio. */
  lemma RatioMonotone(d1: nat, d2: nat, m: nat)
    requires m > 0
    requires d1 <= d2
    ensures Ratio(d1, m) <= Ratio(d2, m)
  {
    assert Ratio(d2, m) - Ratio(d1, m) == (d2 - d1) as real / m as real;
  }

  /** `0.2 + 0.8 * (degrees[node] / max_degree)` */
  function ActivityOf(d: nat, m: nat): (a: real)
    requires m > 0
    ensures d <= m ==> 0.2 <= a <= 1.0
  {
    0.2 + 0.8 * Ratio(d, m)
  }

  /** `0.02 + 0.08 * (degrees[node] / max_degree)` */
  function InfluenceOf(d: nat, m: nat): (i: real)
    requires m > 0
    ensures d <= m ==> 0.02 <= i <= 0.1
  {
    0.02 + 0.08 * Ratio(d, m)
  }

  /** The attribute maps the loop writes, one entry per node. */
  function ActivityMap(g: Graph, m: nat): (a: map<Node, real>)
    requires WellFormed(g)
    requires m > 0
    ensures a.Keys == NodeSet(g)
    ensures forall u :: u in a ==> a[u] == ActivityOf(Degree(g, u), m)
  {
    map u | u in NodeSet(g) :: ActivityOf(Degree(g, u), m)
  }

  function InfluenceMap(g: Graph, m: nat): (i: map<Node, real>)
    requires WellFormed(g)
    requires m > 0
    ensures i.Keys == NodeSet(g)
    ensures forall u :: u in i ==> i[u] == InfluenceOf(Degree(g, u), m)
  {
    map u | u in NodeSet(g) :: InfluenceOf(Degree(g, u), m)
  }

  /** Replacing the attributes keeps a graph well formed. */
  lemma AttributesIrrelevant(g: Graph, h: Graph)
    requires WellFormed(g)
    requires h.nodes == g.nodes && h.adj == g.adj
    ensures WellFormed(h)
  {
    forall u, v | Adjacent(h, u, v) ensures v in h.nodes {
      assert Adjacent(g, u, v);
    }
  }

  /** The attribute loop of `build_dashboard`: every node's `activity` and
      `influence` set from its degree relative to the largest degree. An
      empty graph is left as it is (`max_degree` defaults to 1 and the loop
      is empty); a graph with nodes but no edge divides by zero. */
  function InitAttributes(g: Graph): (r: Result<Graph>)
    requires WellFormed(g)
    ensures r.Err? <==> g.nodes != [] && forall u :: u in g.nodes ==> Degree(g, u) == 0
    ensures r.Err? ==> r.error == ZeroMaxDegree
    ensures r.Ok? ==>
      && r.value.nodes == g.nodes && r.value.adj == g.adj && r.value.weight == g.weight
      && WellFormed(r.value)
      && NodeSet(g) <= r.value.activity.Keys
      && NodeSet(g) <= r.value.influence.Keys
    ensures r.Ok? ==> forall u :: u in g.nodes ==>
      && 0.2 <= r.value.activity[u] <= 1.0
      && 0.02 <= r.value.influence[u] <= 0.1
  {
    if g.nodes == [] then Ok(g)
    else
      var m := MaxDegree(g);
      if m == 0 then Err(ZeroMaxDegree)
      else
        var h := g.(activity := g.activity + ActivityMap(g, m), influence := g.influence + InfluenceMap(g, m));
        AttributesIrrelevant(g, h);
        Ok(h)
  }

  /** Each node's attributes are the affine functions of its degree ratio,
      and they are monotone in the degree. */
  lemma AttributesFollowDegree(g: Graph, u: Node, v: Node)
    requires WellFormed(g)
    requires InitAttributes(g).Ok?
    requires u in g.nodes && v in g.nodes
    ensures MaxDegree(g) > 0
    ensures InitAttributes(g).value.activity[u] == ActivityOf(Degree(g, u), MaxDegree(g))
    ensures InitAttributes(g).value.influence[u] == InfluenceOf(Degree(g, u), MaxDegree(g))
    ensures Degree(g, u) <= Degree(g, v) ==>
      && InitAttributes(g).value.activity[u] <= InitAttributes(g).value.activity[v]
      && InitAttributes(g).value.influence[u] <= InitAttributes(g).value.influence[v]
  {
    var m := MaxDegree(g);
    var h := InitAttributes(g).value;
    assert u in NodeSet(g) && v in NodeSet(g);
    assert h.activity[u] == ActivityOf(Degree(g, u), m);
    assert h.activity[v] == ActivityOf(Degree(g, v), m);
    if Degree(g, u) <= Degree(g, v) {
      RatioMonotone(Degree(g, u), Degree(g, v), m);
    }
  }

  /** A node of the largest degree gets activity 1.0 and influence 0.10; an
      isolated node gets 0.2 and 0.02. */
  lemma AttributeExtremes(g: Graph, u: Node)
    requires WellFormed(g)
    requires InitAttributes(g).Ok?
    requires u in g.nodes
    ensures Degree(g, u) == MaxDegree(g) ==>
      InitAttributes(g).value.activity[u] == 1.0 && InitAttributes(g).value.influence[u] == 0.1
    ensures Degree(g, u) == 0 ==>
      InitAttributes(g).value.activity[u] == 0.2 && InitAttributes(g).value.influence[u] == 0.02
  {
    AttributesFollowDegree(g, u, u);
  }

  /** What the modelled part of the dashboard produces: the single cascade's
      history, its time series, the Monte Carlo sizes and the graph as the
      runs leave it. */
  datatype Dashboard = Dashboard(history: seq<Entry>, timeseries: seq<Row>, sizes: seq<nat>, graph: Graph)

  /** `build_dashboard` up to the Monte Carlo call. `generate` stands for the
      networkx generators. The Monte Carlo runs start from the graph the
      single cascade has already amplified. */
  function BuildDashboard(ntcfg: TopologyConfig, cfg: CascadeConfig, runs: int,
                          generate: GeneratorCall -> Result<Graph>, rng: Rng): (r: Result<Dashboard>)
    requires forall c :: generate(c).Ok? ==> WellFormed(generate(c).value)
    requires ValidRng(rng)
    ensures r.Ok? ==> |r.value.history| == |r.value.timeseries| == TickCount(cfg.iterations)
    ensures r.Ok? ==> |r.value.sizes| == RunCount(runs)
    ensures BuildGraph(ntcfg).Err? ==> r == Err(BuildGraph(ntcfg).error)
    ensures BuildGraph(ntcfg).Ok? && generate(BuildGraph(ntcfg).value).Err? ==>
      r == Err(generate(BuildGraph(ntcfg).value).error)
  {
    var call :- BuildGraph(ntcfg);
    var generated :- generate(call);
    var g :- InitAttributes(generated);
    var out :- RunCascade(g, cfg, rng);
    var series := Timeseries(out.history, |g.nodes|);
    var amplified := g.(influence := out.influence);
    InfluenceIrrelevant(g, amplified);
    var ensemble :- CascadeSizeMonteCarlo(amplified, cfg, runs, rng);
    Ok(Dashboard(out.history, series, ensemble.sizes, ensemble.graph))
  }

  /** The pipeline order: the time series is taken of the single cascade's
      history with the node count as n, and the Monte Carlo runs start from
      the initialised graph with the influence that cascade amplified on the
      nodes it activated beyond its seeds. */
  lemma DashboardOrder(ntcfg: TopologyConfig, cfg: CascadeConfig, runs: int,
                       generate: GeneratorCall -> Result<Graph>, rng: Rng)
    requires forall c :: generate(c).Ok? ==> WellFormed(generate(c).value)
    requires ValidRng(rng)
    requires BuildDashboard(ntcfg, cfg, runs, generate, rng).Ok?
    ensures BuildGraph(ntcfg).Ok?
    ensures generate(BuildGraph(ntcfg).value).Ok?
    ensures InitAttributes(generate(BuildGraph(ntcfg).value).value).Ok?
    ensures
      var g := InitAttributes(generate(BuildGraph(ntcfg).value).value).value;
      var out := RunCascade(g, cfg, rng);
      var d := BuildDashboard(ntcfg, cfg, runs, generate, rng).value;
      && out.Ok?
      && InitialActive(g, cfg, rng).Ok?
      && d.history == out.value.history
      && d.timeseries == Timeseries(out.value.history, |g.nodes|)
      && WellFormed(g.(influence := out.value.influence))
      && CascadeSizeMonteCarlo(g.(influence := out.value.influence), cfg, runs, rng).Ok?
      && d.sizes == CascadeSizeMonteCarlo(g.(influence := out.value.influence), cfg, runs, rng).value.sizes
      && (|out.value.history| > 0 ==>
            out.value.influence ==
              Amplified(g.influence, StatusKeys(out.value.history[|out.value.history| - 1]) - InitialActive(g, cfg, rng).value))
  {
    var g := InitAttributes(generate(BuildGraph(ntcfg).value).value).value;
    RunAmplification(g, cfg, rng);
    InfluenceIrrelevant(g, g.(influence := RunCascade(g, cfg, rng).value.influence));
  }

  /** A known topology whose generator succeeds with a graph that is empty
      or has an edge, seeds numpy accepts for the single cascade and for
      every Monte Carlo run, a fraction in [0, 1] and at least one tick: the
      dashboard's modelled part succeeds. */
  lemma DashboardSucceeds(ntcfg: TopologyConfig, cfg: CascadeConfig, runs: int,
                          generate: GeneratorCall -> Result<Graph>, rng: Rng)
    requires forall c :: generate(c).Ok? ==> WellFormed(generate(c).value)
    requires ValidRng(rng)
    requires ntcfg.name in {"ER", "WS", "BA", "HK"}
    requires generate(BuildGraph(ntcfg).value).Ok?
    requires
      var g := generate(BuildGraph(ntcfg).value).value;
      g.nodes == [] || exists u :: u in g.nodes && u in g.adj && Degree(g, u) > 0
    requires ValidSeed(cfg.seed)
    requires forall i: nat :: i < RunCount(runs) ==> ValidSeed(RunSeed(cfg.seed, i))
    requires 0.0 <= cfg.fractionInfected <= 1.0
    requires cfg.iterations >= 1
    ensures BuildDashboard(ntcfg, cfg, runs, generate, rng).Ok?
  {
    var g := InitAttributes(generate(BuildGraph(ntcfg).value).value).value;
    RunSucceeds(g, cfg, rng);
    var amplified := g.(influence := RunCascade(g, cfg, rng).value.influence);
    InfluenceIrrelevant(g, amplified);
    MonteCarloSucceeds(amplified, cfg, runs, rng);
  }

  /** Without ticks the Monte Carlo call has no last row to read, so the
      dashboard fails as soon as there is one run. */
  lemma DashboardNeedsTicks(ntcfg: TopologyConfig, cfg: CascadeConfig, runs: int,
                            generate: GeneratorCall -> Result<Graph>, rng: Rng)
    requires forall c :: generate(c).Ok? ==> WellFormed(generate(c).value)
    requires ValidRng(rng)
    requires cfg.iterations <= 0
    requires runs >= 1
    ensures BuildDashboard(ntcfg, cfg, runs, generate, rng).Err?
  {
    if BuildDashboard(ntcfg, cfg, runs, generate, rng).Ok? {
      DashboardOrder(ntcfg, cfg, runs, generate, rng);
      var g := InitAttributes(generate(BuildGraph(ntcfg).value).value).value;
      NoTicksFails(g.(influence := RunCascade(g, cfg, rng).value.influence), cfg, rng, runs);
      assert false;
    }
  }
}
