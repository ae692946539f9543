/** `cascade_size_monte_carlo`: `runs` sequential engine calls with derived
    seeds, all on the same graph object, keeping each run's final reach. The
    graph is not restored between runs, so the influence amplified by one run
    is what the next run starts from.

    The loop is written over an engine (a function from a graph and a
    configuration to an outcome) so that its bookkeeping can be reasoned
    about apart from the engine; `CascadeSizeMonteCarlo` instantiates it
    with `run_custom_cascade`. */
module MonteCarloCascades {
  import opened Results
  import opened Graphs
  import opened History
  import opened Config
  import opened Randomness
  import opened CustomCascades
  import opened CascadeProperties
  import opened TimeseriesCascades

  /** `base_seed + run * 17` */
  function RunSeed(base: int, run: nat): int {
    base + run * 17
  }

  /** numpy accepts every one of the first `runs` derived seeds: the derived
      seeds grow with the run index, so the first and the last decide. */
  predicate SeedsAccepted(base: int, runs: nat) {
    runs == 0 || (ValidSeed(base) && ValidSeed(RunSeed(base, runs - 1)))
  }

  /** `SeedsAccepted` holds exactly when every one of the first `runs`
      derived seeds is in numpy's range. */
  lemma SeedsAcceptedMeans(base: int, runs: nat)
    ensures SeedsAccepted(base, runs) <==> forall i: nat :: i < runs ==> ValidSeed(RunSeed(base, i))
  {
    if runs > 0 && !SeedsAccepted(base, runs) {
      if !ValidSeed(base) {
        assert RunSeed(base, 0) == base;
      } else {
        assert !ValidSeed(RunSeed(base, runs - 1));
      }
    }
  }

  /** The configuration of run `run`: three fields copied, the seed derived,
      every other field at its dataclass default. */
  function RunConfig(cfg: CascadeConfig, run: nat): (c: CascadeConfig)
    ensures c.fractionInfected == cfg.fractionInfected
    ensures c.influenceProbability == cfg.influenceProbability
    ensures c.iterations == cfg.iterations
    ensures c.seed == RunSeed(cfg.seed, run)
    ensures c.activityRate == DefaultCascade.activityRate
    ensures c.baseInfluence == DefaultCascade.baseInfluence
    ensures c.preferentialAmplification == DefaultCascade.preferentialAmplification
  {
    DefaultCascade.(
      fractionInfected := cfg.fractionInfected,
      influenceProbability := cfg.influenceProbability,
      iterations := cfg.iterations,
      seed := RunSeed(cfg.seed, run))
  }

  /** A cascade engine: graph and configuration in, history and final
      influence out. */
  type Engine = (Graph, CascadeConfig) --> Result<CascadeOutcome>

  /** The engine accepts every well-formed graph. */
  ghost predicate AcceptsWellFormed(engine: Engine) {
    forall gr: Graph, c: CascadeConfig :: WellFormed(gr) ==> engine.requires(gr, c)
  }

  /** `run_custom_cascade`, drawing from `rng`. */
  function CustomEngine(rng: Rng): (engine: Engine)
    requires ValidRng(rng)
    ensures AcceptsWellFormed(engine)
    ensures forall gr: Graph, c: CascadeConfig :: WellFormed(gr) ==> engine(gr, c) == RunCascade(gr, c, rng)
  {
    (gr: Graph, c: CascadeConfig) requires WellFormed(gr) && ValidRng(rng) => RunCascade(gr, c, rng)
  }

  /** The sizes collected so far and the graph as the runs left it. */
  datatype Ensemble = Ensemble(sizes: seq<nat>, graph: Graph)

  /** `cascade_timeseries(history, n)["total_infected"].iloc[-1]`: the
      number of nodes ever reported infected, or the error `iloc[-1]` raises
      on an empty frame. `FinalReachIsLastRow` ties it to the last row. */
  function FinalReach(history: seq<Entry>): (r: Result<nat>)
    ensures r.Ok? <==> |history| > 0
  {
    if |history| == 0 then Err(EmptyTimeseries) else Ok(|EverInfected(history)|)
  }

  /** The final reach is the last row's `total_infected`, whatever the node
      count. */
  lemma FinalReachIsLastRow(history: seq<Entry>, nodes: int)
    requires |history| > 0
    ensures
      var ts := Timeseries(history, nodes);
      FinalReach(history).value == ts[|ts| - 1].totalInfected
  {
    assert history[..|history|] == history;
  }

  /** `h` differs from `g` at most in its influence attribute. */
  predicate SameTopology(g: Graph, h: Graph) {
    && h.nodes == g.nodes
    && h.adj == g.adj
    && h.weight == g.weight
    && h.activity == g.activity
  }

  /** Well-formedness does not depend on the influence attribute. */
  lemma InfluenceIrrelevant(g: Graph, h: Graph)
    requires WellFormed(g)
    requires SameTopology(g, h)
    ensures WellFormed(h)
  {
    forall u, v | Adjacent(h, u, v) ensures v in h.nodes {
      assert Adjacent(g, u, v);
    }
  }

  /** One iteration of the loop: run the engine on the current graph with the
      derived configuration, record its final reach, keep its influence. */
  function OneRun(gr: Graph, cfg: CascadeConfig, engine: Engine, run: nat): (r: Result<(nat, Graph)>)
    requires WellFormed(gr)
    requires AcceptsWellFormed(engine)
    ensures r.Ok? ==> SameTopology(gr, r.value.1) && WellFormed(r.value.1)
  {
    var out :- engine(gr, RunConfig(cfg, run));
    var size :- FinalReach(out.history);
    InfluenceIrrelevant(gr, gr.(influence := out.influence));
    Ok((size, gr.(influence := out.influence)))
  }

  /** The first `runs` iterations of the loop. */
  function Runs(g: Graph, cfg: CascadeConfig, engine: Engine, runs: nat): (r: Result<Ensemble>)
    requires WellFormed(g)
    requires AcceptsWellFormed(engine)
    ensures r.Ok? ==> |r.value.sizes| == runs
    ensures r.Ok? ==> SameTopology(g, r.value.graph) && WellFormed(r.value.graph)
    decreases runs
  {
    if runs == 0 then Ok(Ensemble([], g))
    else
      var e :- Runs(g, cfg, engine, runs - 1);
      var step :- OneRun(e.graph, cfg, engine, runs - 1);
      Ok(Ensemble(e.sizes + [step.0], step.1))
  }

  /** `range(runs)` is empty for a non-positive count. */
  function RunCount(runs: int): nat {
    if runs > 0 then runs else 0
  }

  /** `cascade_size_monte_carlo(graph, config, runs)`: exactly `runs` values
      in run order (none for `runs <= 0`), together with the graph as the
      runs leave it: same nodes, edges and activity. */
  function CascadeSizeMonteCarlo(g: Graph, cfg: CascadeConfig, runs: int, rng: Rng): (r: Result<Ensemble>)
    requires WellFormed(g)
    requires ValidRng(rng)
    ensures r.Ok? ==> |r.value.sizes| == RunCount(runs)
    ensures runs <= 0 ==> r == Ok(Ensemble([], g))
    ensures r.Ok? ==> SameTopology(g, r.value.graph)
  {
    Runs(g, cfg, CustomEngine(rng), RunCount(runs))
  }

  /** The derived seeds of distinct runs are distinct. */
  lemma RunSeedsDistinct(base: int, i: nat, j: nat)
    requires i != j
    ensures RunSeed(base, i) != RunSeed(base, j)
  {
  }

  /** One more run appends exactly one value: the reach of that run on the
      graph the earlier runs left behind. */
  lemma RunsStep(g: Graph, cfg: CascadeConfig, engine: Engine, n: nat)
    requires WellFormed(g)
    requires AcceptsWellFormed(engine)
    requires n > 0
    requires Runs(g, cfg, engine, n).Ok?
    ensures Runs(g, cfg, engine, n - 1).Ok?
    ensures Runs(g, cfg, engine, n).value.sizes[..n - 1] == Runs(g, cfg, engine, n - 1).value.sizes
    ensures
      var step := OneRun(Runs(g, cfg, engine, n - 1).value.graph, cfg, engine, n - 1);
      && step.Ok?
      && Runs(g, cfg, engine, n).value.sizes[n - 1] == step.value.0
      && Runs(g, cfg, engine, n).value.graph == step.value.1
  {
    var e := Runs(g, cfg, engine, n - 1);
    var step := OneRun(e.value.graph, cfg, engine, n - 1);
    assert Runs(g, cfg, engine, n).value.sizes == e.value.sizes + [step.value.0];
  }

  /** A longer ensemble extends a shorter one: its first values are those of
      the shorter ensemble. */
  lemma {:induction false} RunsPrefix(g: Graph, cfg: CascadeConfig, engine: Engine, i: nat, n: nat)
    requires WellFormed(g)
    requires AcceptsWellFormed(engine)
    requires i <= n
    requires Runs(g, cfg, engine, n).Ok?
    ensures Runs(g, cfg, engine, i).Ok?
    ensures Runs(g, cfg, engine, i).value.sizes == Runs(g, cfg, engine, n).value.sizes[..i]
    decreases n
  {
    var s := Runs(g, cfg, engine, n).value.sizes;
    if i < n {
      RunsStep(g, cfg, engine, n);
      RunsPrefix(g, cfg, engine, i, n - 1);
      assert s[..n - 1][..i] == s[..i];
    } else {
      assert s[..i] == s;
    }
  }

  /** Value i comes from run i, on the graph the first i runs left behind;
      run i+1 starts from the graph run i leaves behind. */
  lemma RunValue(g: Graph, cfg: CascadeConfig, engine: Engine, n: nat, i: nat)
    requires WellFormed(g)
    requires AcceptsWellFormed(engine)
    requires Runs(g, cfg, engine, n).Ok?
    requires i < n
    ensures Runs(g, cfg, engine, i).Ok? && Runs(g, cfg, engine, i + 1).Ok?
    ensures
      var step := OneRun(Runs(g, cfg, engine, i).value.graph, cfg, engine, i);
      && step.Ok?
      && Runs(g, cfg, engine, n).value.sizes[i] == step.value.0
      && Runs(g, cfg, engine, i + 1).value.graph == step.value.1
  {
    RunsPrefix(g, cfg, engine, i + 1, n);
    RunsStep(g, cfg, engine, i + 1);
    assert Runs(g, cfg, engine, n).value.sizes[..i + 1][i] == Runs(g, cfg, engine, n).value.sizes[i];
  }

  /** A successful custom-engine run reports the size of the final active
      set, which the engine's last history entry lists, bounded below by the
      initial sample size and above by the node count, and leaves the
      engine's influence on an otherwise unchanged graph. */
  lemma CustomRunOutcome(gr: Graph, cfg: CascadeConfig, rng: Rng, run: nat)
    requires WellFormed(gr)
    requires ValidRng(rng)
    requires OneRun(gr, cfg, CustomEngine(rng), run).Ok?
    ensures
      var out := RunCascade(gr, RunConfig(cfg, run), rng);
      var step := OneRun(gr, cfg, CustomEngine(rng), run).value;
      && out.Ok?
      && |out.value.history| > 0
      && step.0 == |StatusKeys(out.value.history[|out.value.history| - 1])|
      && InitialCount(|gr.nodes|, cfg.fractionInfected) <= step.0 <= |gr.nodes|
      && step.1 == gr.(influence := out.value.influence)
  {
    var c := RunConfig(cfg, run);
    var out := RunCascade(gr, c, rng);
    assert CustomEngine(rng)(gr, c) == out;
    var h := out.value.history;
    RunHistory(gr, c, rng);
    EngineHistoryTotals(h, |gr.nodes|, |h| - 1);
    assert h[..|h|] == h;
    var last := StatusKeys(h[|h| - 1]);
    var init := InitialActive(gr, c, rng).value;
    InitialActiveSize(gr, c, rng);
    SubsetCardinality(init, last);
    SubsetCardinality(last, NodeSet(gr));
    DistinctCardinality(gr.nodes);
  }

  /** The graph run `i` starts from. */
  function GraphBeforeRun(g: Graph, cfg: CascadeConfig, rng: Rng, i: nat): (gi: Graph)
    requires WellFormed(g)
    requires ValidRng(rng)
    requires Runs(g, cfg, CustomEngine(rng), i).Ok?
    ensures SameTopology(g, gi) && WellFormed(gi)
  {
    Runs(g, cfg, CustomEngine(rng), i).value.graph
  }

  /** Value i of `cascade_size_monte_carlo` is the final reach of run i: the
      number of nodes the engine's last history entry lists, for the engine
      run with seed `config.seed + 17 * i` on the graph the earlier runs left
      behind. That value lies between `int(n * fraction_infected)` and n, and
      run i+1 starts from the influence run i leaves behind: nothing is
      restored between runs. */
  lemma MonteCarloValue(g: Graph, cfg: CascadeConfig, runs: int, rng: Rng, i: nat)
    requires WellFormed(g)
    requires ValidRng(rng)
    requires CascadeSizeMonteCarlo(g, cfg, runs, rng).Ok?
    requires i < RunCount(runs)
    ensures Runs(g, cfg, CustomEngine(rng), i).Ok? && Runs(g, cfg, CustomEngine(rng), i + 1).Ok?
    ensures
      var gi := GraphBeforeRun(g, cfg, rng, i);
      var out := RunCascade(gi, RunConfig(cfg, i), rng);
      var size := CascadeSizeMonteCarlo(g, cfg, runs, rng).value.sizes[i];
      && out.Ok?
      && |out.value.history| > 0
      && size == |StatusKeys(out.value.history[|out.value.history| - 1])|
      && InitialCount(|g.nodes|, cfg.fractionInfected) <= size <= |g.nodes|
      && GraphBeforeRun(g, cfg, rng, i + 1) == gi.(influence := out.value.influence)
  {
    var engine := CustomEngine(rng);
    RunValue(g, cfg, engine, RunCount(runs), i);
    CustomRunOutcome(GraphBeforeRun(g, cfg, rng, i), cfg, rng, i);
  }

  /** The graph run i+1 starts from carries the influence of run i's start,
      amplified on the nodes run i activated beyond its seeds. */
  lemma InfluenceCarriesOver(g: Graph, cfg: CascadeConfig, runs: int, rng: Rng, i: nat)
    requires WellFormed(g)
    requires ValidRng(rng)
    requires CascadeSizeMonteCarlo(g, cfg, runs, rng).Ok?
    requires i < RunCount(runs)
    ensures Runs(g, cfg, CustomEngine(rng), i).Ok? && Runs(g, cfg, CustomEngine(rng), i + 1).Ok?
    ensures
      var gi := GraphBeforeRun(g, cfg, rng, i);
      var c := RunConfig(cfg, i);
      var h := RunCascade(gi, c, rng).value.history;
      && InitialActive(gi, c, rng).Ok?
      && |h| > 0
      && GraphBeforeRun(g, cfg, rng, i + 1).influence ==
           Amplified(gi.influence, StatusKeys(h[|h| - 1]) - InitialActive(gi, c, rng).value)
  {
    MonteCarloValue(g, cfg, runs, rng, i);
    RunAmplification(GraphBeforeRun(g, cfg, rng, i), RunConfig(cfg, i), rng);
  }

  /** A node run i activated whose influence was positive starts run i+1
      with a larger influence: the runs are not isolated from one another. */
  lemma RunsNotIsolated(g: Graph, cfg: CascadeConfig, runs: int, rng: Rng, i: nat, v: Node)
    requires WellFormed(g)
    requires ValidRng(rng)
    requires CascadeSizeMonteCarlo(g, cfg, runs, rng).Ok?
    requires i < RunCount(runs)
    ensures Runs(g, cfg, CustomEngine(rng), i).Ok? && Runs(g, cfg, CustomEngine(rng), i + 1).Ok?
    ensures
      var gi := GraphBeforeRun(g, cfg, rng, i);
      var c := RunConfig(cfg, i);
      var h := RunCascade(gi, c, rng).value.history;
      && InitialActive(gi, c, rng).Ok?
      && |h| > 0
      && (v in StatusKeys(h[|h| - 1]) - InitialActive(gi, c, rng).value && v in gi.influence && gi.influence[v] > 0.0 ==>
            GraphBeforeRun(g, cfg, rng, i + 1).influence[v] > gi.influence[v])
  {
    InfluenceCarriesOver(g, cfg, runs, rng, i);
    var gi := GraphBeforeRun(g, cfg, rng, i);
    var c := RunConfig(cfg, i);
    var h := RunCascade(gi, c, rng).value.history;
    AmplifiedGrows(gi.influence, StatusKeys(h[|h| - 1]) - InitialActive(gi, c, rng).value, v);
  }

  /** Amplification strictly raises a positive influence. */
  lemma AmplifiedGrows(influence: map<Node, real>, infected: set<Node>, v: Node)
    ensures v in infected && v in influence && influence[v] > 0.0 ==>
      Amplified(influence, infected)[v] > influence[v]
  {
  }

  /** Run `run` on `gr` succeeds and leaves an influence for every node of
      `nodes`. */
  ghost predicate RunOk(gr: Graph, cfg: CascadeConfig, engine: Engine, run: nat, nodes: set<Node>)
    requires WellFormed(gr)
    requires AcceptsWellFormed(engine)
  {
    var step := OneRun(gr, cfg, engine, run);
    step.Ok? && nodes <= step.value.1.influence.Keys
  }

  /** If every run succeeds on any graph with `g`'s nodes and an influence
      for each of them, the first `n` runs succeed, each leaving an influence
      for every node for the next. */
  lemma {:induction false} RunsSucceedWith(g: Graph, cfg: CascadeConfig, engine: Engine, n: nat)
    requires WellFormed(g)
    requires AcceptsWellFormed(engine)
    requires NodeSet(g) <= g.influence.Keys
    requires forall gr: Graph, i: nat | i < n && WellFormed(gr) && gr.nodes == g.nodes && NodeSet(g) <= gr.influence.Keys ::
      RunOk(gr, cfg, engine, i, NodeSet(g))
    ensures Runs(g, cfg, engine, n).Ok?
    ensures NodeSet(g) <= Runs(g, cfg, engine, n).value.graph.influence.Keys
    decreases n
  {
    if n > 0 {
      RunsSucceedWith(g, cfg, engine, n - 1);
      var gr := Runs(g, cfg, engine, n - 1).value.graph;
      assert gr.nodes == g.nodes;
      assert RunOk(gr, cfg, engine, n - 1, NodeSet(g));
      RunsExtend(g, cfg, engine, n);
    }
  }

  /** The first `n` runs succeed once the first `n - 1` and the next one do,
      and leave the graph that next run leaves. */
  lemma RunsExtend(g: Graph, cfg: CascadeConfig, engine: Engine, n: nat)
    requires WellFormed(g)
    requires AcceptsWellFormed(engine)
    requires n > 0
    requires Runs(g, cfg, engine, n - 1).Ok?
    requires OneRun(Runs(g, cfg, engine, n - 1).value.graph, cfg, engine, n - 1).Ok?
    ensures Runs(g, cfg, engine, n).Ok?
    ensures Runs(g, cfg, engine, n).value.graph ==
      OneRun(Runs(g, cfg, engine, n - 1).value.graph, cfg, engine, n - 1).value.1
  {
  }

  /** With run seeds numpy accepts, a valid sample size, at least one tick
      and an influence for every node, every run succeeds, and each leaves an
      influence for every node for the next. */
  lemma RunsSucceed(g: Graph, cfg: CascadeConfig, rng: Rng, n: nat)
    requires WellFormed(g)
    requires ValidRng(rng)
    requires SeedsAccepted(cfg.seed, n)
    requires 0 <= InitialCount(|g.nodes|, cfg.fractionInfected) <= |g.nodes|
    requires cfg.iterations >= 1
    requires NodeSet(g) <= g.influence.Keys
    ensures Runs(g, cfg, CustomEngine(rng), n).Ok?
    ensures NodeSet(g) <= Runs(g, cfg, CustomEngine(rng), n).value.graph.influence.Keys
  {
    SeedsAcceptedMeans(cfg.seed, n);
    forall gr: Graph, i: nat | i < n && WellFormed(gr) && gr.nodes == g.nodes && NodeSet(g) <= gr.influence.Keys
      ensures RunOk(gr, cfg, CustomEngine(rng), i, NodeSet(g))
    {
      assert NodeSet(gr) == NodeSet(g);
      OneRunSucceeds(gr, cfg, rng, i);
    }
    RunsSucceedWith(g, cfg, CustomEngine(rng), n);
  }

  /** One run with an accepted seed, a valid sample size, at least one tick
      and an influence for every node succeeds and keeps an influence for
      every node. */
  lemma OneRunSucceeds(gr: Graph, cfg: CascadeConfig, rng: Rng, run: nat)
    requires WellFormed(gr)
    requires ValidRng(rng)
    requires ValidSeed(RunSeed(cfg.seed, run))
    requires 0 <= InitialCount(|gr.nodes|, cfg.fractionInfected) <= |gr.nodes|
    requires cfg.iterations >= 1
    requires NodeSet(gr) <= gr.influence.Keys
    ensures OneRun(gr, cfg, CustomEngine(rng), run).Ok?
    ensures NodeSet(gr) <= OneRun(gr, cfg, CustomEngine(rng), run).value.1.influence.Keys
  {
    var c := RunConfig(cfg, run);
    RunSucceeds(gr, c, rng);
    assert CustomEngine(rng)(gr, c) == RunCascade(gr, c, rng);
  }

  /** The same, for `cascade_size_monte_carlo` itself. */
  lemma MonteCarloSucceeds(g: Graph, cfg: CascadeConfig, runs: int, rng: Rng)
    requires WellFormed(g)
    requires ValidRng(rng)
    requires forall i: nat :: i < RunCount(runs) ==> ValidSeed(RunSeed(cfg.seed, i))
    requires 0 <= InitialCount(|g.nodes|, cfg.fractionInfected) <= |g.nodes|
    requires cfg.iterations >= 1
    requires NodeSet(g) <= g.influence.Keys
    ensures CascadeSizeMonteCarlo(g, cfg, runs, rng).Ok?
  {
    SeedsAcceptedMeans(cfg.seed, RunCount(runs));
    RunsSucceed(g, cfg, rng, RunCount(runs));
  }

  /** A run whose derived seed numpy rejects makes the whole call fail:
      `seed + 17 * i` can leave [0, 2^32 - 1] even when `seed` is in it. */
  lemma SeedOutOfRangeFails(g: Graph, cfg: CascadeConfig, runs: int, rng: Rng, i: nat)
    requires WellFormed(g)
    requires ValidRng(rng)
    requires i < RunCount(runs)
    requires !ValidSeed(RunSeed(cfg.seed, i))
    ensures CascadeSizeMonteCarlo(g, cfg, runs, rng).Err?
  {
    if CascadeSizeMonteCarlo(g, cfg, runs, rng).Ok? {
      MonteCarloValue(g, cfg, runs, rng, i);
      assert false;
    }
  }

  /** With no ticks there is no last row, so any positive number of runs
      fails. */
  lemma NoTicksFails(g: Graph, cfg: CascadeConfig, rng: Rng, runs: int)
    requires WellFormed(g)
    requires ValidRng(rng)
    requires cfg.iterations <= 0
    requires runs >= 1
    ensures CascadeSizeMonteCarlo(g, cfg, runs, rng).Err?
  {
    var r := CascadeSizeMonteCarlo(g, cfg, runs, rng);
    if r.Ok? {
      MonteCarloValue(g, cfg, runs, rng, 0);
      assert false;
    }
  }
}
