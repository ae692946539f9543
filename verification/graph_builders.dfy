/** `build_graph`: choose a networkx generator by topology name and
    normalise its parameters. The generators themselves are outside the
    model; `BuildGraph` yields the generator call, with every argument it
    would receive. */
module GraphBuilders {
  import opened Results
  import opened Config

  /** A call of one of the four networkx generators, with its arguments. */
  datatype GeneratorCall =
    | ErdosRenyi(nodes: int, p: real, seed: int, directed: bool)
    | WattsStrogatz(nodes: int, k: int, p: real, seed: int)
    | BarabasiAlbert(nodes: int, m: int, seed: int)
    | PowerlawCluster(nodes: int, m: int, p: real, seed: int)
  {
    /** The seed handed to the generator. */
    function Seed(): int {
      match this
      case ErdosRenyi(_, _, s, _) => s
      case WattsStrogatz(_, _, _, s) => s
      case BarabasiAlbert(_, _, s) => s
      case PowerlawCluster(_, _, _, s) => s
    }

    /** The node count handed to the generator. */
    function Nodes(): int {
      match this
      case ErdosRenyi(n, _, _, _) => n
      case WattsStrogatz(n, _, _, _) => n
      case BarabasiAlbert(n, _, _) => n
      case PowerlawCluster(n, _, _, _) => n
    }
  }

  function Max(a: int, b: int): int {
    if a >= b then a else b
  }

  function Min(a: int, b: int): int {
    if a <= b then a else b
  }

  /** `if links % 2 == 1: links += 1`. Python's `%` agrees with Dafny's for
      the divisor 2, negative operands included. */
  function RoundUpToEven(links: int): (r: int)
    ensures r % 2 == 0
    ensures links <= r <= links + 1
  {
    if links % 2 == 1 then links + 1 else links
  }

  /** The Watts-Strogatz neighbour count `max(2, min(links, nodes - 1))`
      after rounding the request up to even. */
  function WsLinks(requested: int, nodes: int): (k: int)
    ensures k >= 2
    ensures nodes >= 3 ==> k <= nodes - 1
    ensures k == 2 || k == nodes - 1 || k == RoundUpToEven(requested)
  {
    Max(2, Min(RoundUpToEven(requested), nodes - 1))
  }

  /** An odd request within range becomes the next even number. */
  lemma WsOddRequestRoundsUp(requested: int, nodes: int)
    requires requested % 2 == 1
    requires 2 <= requested + 1 <= nodes - 1
    ensures WsLinks(requested, nodes) == requested + 1
  {
  }

  /** The clamp runs after the rounding, so the neighbour count is odd
      whenever an even node count makes `nodes - 1` the binding bound. */
  lemma WsLinksOddAfterClamp(requested: int, nodes: int)
    requires nodes >= 4 && nodes % 2 == 0
    requires RoundUpToEven(requested) > nodes - 1
    ensures WsLinks(requested, nodes) == nodes - 1
    ensures WsLinks(requested, nodes) % 2 == 1
  {
  }

  /** The Barabasi-Albert and Holme-Kim attachment count
      `max(1, min(no_linked_edges, nodes - 1))`. */
  function EdgeLinks(requested: int, nodes: int): (m: int)
    ensures m >= 1
    ensures nodes >= 2 ==> m <= nodes - 1
    ensures m == 1 || m == nodes - 1 || m == requested
    ensures 1 <= requested <= nodes - 1 ==> m == requested
  {
    Max(1, Min(requested, nodes - 1))
  }

  /** `build_graph(ntconfig)`: the generator call for the four known names,
      `ValueError` for any other. */
  function BuildGraph(cfg: TopologyConfig): (r: Result<GeneratorCall>)
    ensures r.Ok? <==> cfg.name in {"ER", "WS", "BA", "HK"}
    ensures r.Err? ==> r.error == UnknownTopology(cfg.name)
    ensures r.Ok? ==> r.value.Seed() == cfg.seed && r.value.Nodes() == cfg.nodes
    ensures cfg.name == "ER" ==>
      r == Ok(ErdosRenyi(cfg.nodes, cfg.nodeBirthProbability, cfg.seed, cfg.directed))
    ensures cfg.name == "WS" ==>
      && r.Ok? && r.value.WattsStrogatz?
      && r.value.k == WsLinks(cfg.noLinkedNodes, cfg.nodes)
      && r.value.p == cfg.stageRelinkProbability
    ensures cfg.name == "BA" ==>
      && r.Ok? && r.value.BarabasiAlbert?
      && r.value.m == EdgeLinks(cfg.noLinkedEdges, cfg.nodes)
    ensures cfg.name == "HK" ==>
      && r.Ok? && r.value.PowerlawCluster?
      && r.value.m == EdgeLinks(cfg.noLinkedEdges, cfg.nodes)
      && r.value.p == cfg.triFormationProbability
  {
    if cfg.name == "ER" then
      Ok(ErdosRenyi(cfg.nodes, cfg.nodeBirthProbability, cfg.seed, cfg.directed))
    else if cfg.name == "WS" then
      Ok(WattsStrogatz(cfg.nodes, WsLinks(cfg.noLinkedNodes, cfg.nodes), cfg.stageRelinkProbability, cfg.seed))
    else if cfg.name == "BA" then
      Ok(BarabasiAlbert(cfg.nodes, EdgeLinks(cfg.noLinkedEdges, cfg.nodes), cfg.seed))
    else if cfg.name == "HK" then
      Ok(PowerlawCluster(cfg.nodes, EdgeLinks(cfg.noLinkedEdges, cfg.nodes), cfg.triFormationProbability, cfg.seed))
    else
      Err(UnknownTopology(cfg.name))
  }
}
