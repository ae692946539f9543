# Cascade diffusion pipeline — a Dafny model

This project models the diffusion pipeline of a network-cascade dashboard:

- **Cascade engine** (`run_custom_cascade`). A seeded, discrete-time spread in the style of a susceptible-infected model.
  - A sample of `int(n × fraction_infected)` distinct nodes starts active.
  - Each tick, every active node makes one activity roll against its `activity` attribute. If the roll passes, the node makes one activation roll against `influence × weight` for each neighbour that is not yet activated.
  - Activated nodes stay active for ever.
  - At the end of a tick, each node newly infected in that tick has its `influence` multiplied by `1 + 0.02`.
  - Every tick appends one history entry that maps each active node to 1.
- **Reach aggregator** (`cascade_timeseries`). A fold over a history that accumulates the set of nodes ever reported in state 1 or 2. Each row gives the cumulative total, its proportion of `max(1, nodes)`, and the increment over the previous row.
- **Monte Carlo runner** (`cascade_size_monte_carlo`). `runs` sequential engine calls on the same graph, with run seeds `seed + 17·run`. It keeps the final reach of each run.
- **Topology dispatch** (`build_graph`). Selects a generator by name and clamps its parameters.
- **Dashboard set-up** (`build_dashboard`, its first half). Degree-based `activity` and `influence` attributes, then the order cascade → time series → Monte Carlo.

## Modelling choices

- **Randomness is an explicit input.**
  - An `Rng` maps a seed to a `RandomSource`.
  - `draws(k)` is the k-th value `random.random()` returns after seeding.
  - `permutation(n)` stands for numpy's seeded permutation. `np.random.choice(..., replace=False)` takes its prefix.
  - `setOrder(t, s)` is the order in which `for node in s` visits the set `s` at tick t. CPython iterates an int set in hash-table order, which the program neither controls nor relies on.
  - Two things are assumed about the runtime (`ValidRng`): each permutation is a genuine permutation, and each set order visits every member of the set exactly once (`Listing`). Every theorem holds for every such order.
- **Iteration order.** Sets are iterated in the runtime's `setOrder`. Neighbours are iterated in adjacency-list order.
- **Numbers.** Floats are `real`, with no IEEE rounding. Python's `int()` on a float truncates toward zero (`Trunc`).
- **Errors are values.** Python exceptions become `Result` errors:
  - numpy's `ValueError` for a seed outside `[0, 2³² − 1]` (`np.random.seed`; `random.seed` accepts every integer);
  - numpy's `ValueError` for a sample size outside `[0, n]`;
  - the `KeyError` for an infected node without an `influence` attribute;
  - the `IndexError` of `iloc[-1]` on an empty frame;
  - the `ValueError` for an unknown topology;
  - the division by zero in the attribute loop;
  - whatever error a networkx generator raises, passed through unchanged.
- **Generators are opaque.** The networkx generators are not modelled. `BuildGraph` yields the generator call with its arguments. The dashboard takes the generator as a parameter that returns either a well-formed graph or an error.
- **Shared graph between runs.**
  - The engine mutates the graph's `influence` attribute, and nothing restores it.
  - So the Monte Carlo runs are not isolated from one another: each run starts from the influence the previous run left, and a node a run activated has a larger influence in the next (`InfluenceCarriesOver`, `RunsNotIsolated`).
- **One node state.** The engine writes a single state, 1 (active), and never deactivates a node. The aggregator also counts state 2, which this engine never writes.

## Model

| member | source | states |
|---|---|---|
| Randomness.Trunc | cascades/custom_cascades.py:15 | `int()` of a float truncates toward zero: for x ≥ 0 the result is the largest integer not above x, and for x < 0 the smallest not below it |
| Randomness.InitialCount | cascades/custom_cascades.py:15 | the initial count `int(n × fraction)` lies in [0, n], a sample size numpy accepts, for a fraction in [0, 1], and is not positive for a negative fraction |
| Randomness.SampleMembership | cascades/custom_cascades.py:16 | a node is in the initial sample iff it sits at one of the first `count` positions of the seeded permutation |
| Randomness.Sample | cascades/custom_cascades.py:14-16 | the initial sample contains only nodes of the graph |
| Randomness.SampleFresh | cascades/custom_cascades.py:16 | sampling without replacement: the node at a later permutation position is not among those already drawn |
| Randomness.SampleSize | cascades/custom_cascades.py:16 | the sample holds exactly `count` distinct nodes |
| Graphs.ListingLength | cascades/custom_cascades.py:25 | an iteration order that visits each member of a set exactly once has as many steps as the set has members |
| Graphs.Lookup | cascades/custom_cascades.py:27-34 | `dict.get(key, default)` on a node attribute: the stored value when the node has the attribute, the default otherwise |
| Graphs.EdgeWeight | cascades/custom_cascades.py:42 | an edge's `weight` attribute, 1.0 when the edge has none |
| History.StatusMap | cascades/custom_cascades.py:57 | the status map has exactly the activated nodes as keys, each mapped to 1 |
| History.Record | cascades/custom_cascades.py:58-61 | the entry for tick i carries `"iteration" == i` and the activated set as its status keys |
| CustomCascades.Spread | cascades/custom_cascades.py:37-50 | the neighbour loop only adds neighbours of the list, adds each newly activated node to both the activated and the newly-infected set, and never removes a node |
| CustomCascades.Attempt | cascades/custom_cascades.py:25-50 | one broadcaster's turn consumes at least its activity draw and activates only its own neighbours |
| CustomCascades.Broadcast | cascades/custom_cascades.py:25-50 | over the active nodes, every newly activated node is adjacent to one of them, and each active node consumes at least one draw |
| CustomCascades.TickBroadcast | cascades/custom_cascades.py:22-50 | after a tick's broadcast: the old active set ⊆ activated ⊆ graph; newly infected is exactly activated minus old active; each newly infected node neighbours a node active at the start of the tick |
| CustomCascades.Amplified | cascades/custom_cascades.py:53-54 | amplification keeps exactly the keys of the influence map: no node gains or loses the attribute |
| CustomCascades.Amplify | cascades/custom_cascades.py:53-54 | succeeds iff every newly infected node has an `influence`; multiplies exactly those entries by `1 + 0.02` (the class default, not the per-call config) and keeps every other entry and key |
| CustomCascades.Step | cascades/custom_cascades.py:21-62 | one tick grows the active set within the graph, infects only neighbours of nodes active at its start, amplifies exactly the newly infected, appends entry `Record(i, activated)`, and cannot fail when every node has an influence |
| CustomCascades.Iterate | cascades/custom_cascades.py:21-62 | n ticks append exactly n entries to the history, keep the earlier entries, never shrink the active set and never add influence keys |
| CustomCascades.InitialActive | cascades/custom_cascades.py:14-16 | the initial sample succeeds iff `int(n × fraction)` lies in [0, n], and it is a set of graph nodes |
| CustomCascades.InitialActiveSize | cascades/custom_cascades.py:15-16 | the initial active set has exactly `int(n × fraction_infected)` nodes |
| CustomCascades.RunCascade | cascades/custom_cascades.py:7-64 | the history has one entry per tick of `range(iterations)`; the returned influence has the graph's keys; a seed outside [0, 2³² − 1] is numpy's error, and otherwise an out-of-range sample size is |
| CascadeProperties.CountFreshIgnores | cascades/custom_cascades.py:38-39 | activating a node outside a neighbour list does not change how many draws that list consumes |
| CascadeProperties.SpreadDraws | cascades/custom_cascades.py:37-48 | the neighbour loop consumes exactly one draw per neighbour not already activated; activated neighbours are skipped without a draw |
| CascadeProperties.SpreadRule | cascades/custom_cascades.py:37-50 | the j-th neighbour is activated iff it was not already activated and its draw (the one after the draws of the fresh neighbours before it) is below `influence × weight` |
| CascadeProperties.ActivityGate | cascades/custom_cascades.py:27-48 | a draw strictly above the activity (0.0 when missing) makes no neighbour draws and activates nothing; a draw equal to or below it runs the neighbour loop with the influence read before the loop (0.0 when missing) |
| CascadeProperties.AmplifiedNothing | cascades/custom_cascades.py:53-54 | a tick without new infections leaves the influence unchanged |
| CascadeProperties.AmplifiedCompose | cascades/custom_cascades.py:53-54 | amplifying disjoint sets one after another equals amplifying their union once |
| CascadeProperties.StepPreservesInv | cascades/custom_cascades.py:21-62 | a tick preserves the run invariant: seeds ⊆ every entry's keys ⊆ active ⊆ graph, the last entry lists the active set, entry i is tick i with all values 1, key sets grow, and the influence equals the initial influence amplified once on active minus seeds |
| CascadeProperties.IteratePreservesInv | cascades/custom_cascades.py:21-62 | every number of ticks preserves that invariant |
| CascadeProperties.InitialInv | cascades/custom_cascades.py:14-19 | the state before the first tick satisfies the invariant |
| CascadeProperties.RunHistory | cascades/custom_cascades.py:21-62 | entry i has `"iteration" == i`; every value is 1; each entry's key set contains the previous entries' key sets and the initial sample, within the graph |
| CascadeProperties.RunAmplification | cascades/custom_cascades.py:38-62 | after a call, the influence is the input influence multiplied once for each node the call activated beyond its seeds: no node is amplified twice and no seed is amplified |
| CascadeProperties.NoSeedsNoSpread | cascades/custom_cascades.py:15-16 | when `int(n × fraction)` is 0, the call succeeds and every status map is empty |
| CascadeProperties.RunSucceeds | cascades/custom_cascades.py:11-54 | with a seed in [0, 2³² − 1], a valid sample size and an influence on every node, the call raises nothing |
| CascadeProperties.MoreTicksExtendHistory | cascades/custom_cascades.py:21 | a call with more ticks produces a history that extends the history of the shorter call |
| TimeseriesCascades.EverInfected | cascades/timeseries_cascades.py:12-23 | after the fold, every node that any entry reports in state 1 or 2 is in `ever_infected` |
| TimeseriesCascades.Total | cascades/timeseries_cascades.py:26 | row k's `total_infected` is at least the number of nodes entry k itself reports in state 1 or 2 |
| TimeseriesCascades.Denominator | cascades/timeseries_cascades.py:34 | `max(1, nodes)`: at least 1 and at least `nodes`, and equal to one of the two |
| TimeseriesCascades.Timeseries | cascades/timeseries_cascades.py:14-26 | one row per entry, in order; `iter` is the entry's `"iteration"`, or the row position when the key is absent |
| TimeseriesCascades.EverInfectedMembership | cascades/timeseries_cascades.py:12-23 | a node is in `ever_infected` iff some entry reports it in state 1 or 2; a missing or `None` status reports nothing |
| TimeseriesCascades.EverInfectedGrows | cascades/timeseries_cascades.py:12-23 | `ever_infected` only grows along the history |
| TimeseriesCascades.TotalsNonDecreasing | cascades/timeseries_cascades.py:23-26 | `total_infected` never decreases from one row to a later one |
| TimeseriesCascades.RecentlyInfectedBounds | cascades/timeseries_cascades.py:37 | the first row's `recently_infected` equals its total, and no row's is negative |
| TimeseriesCascades.RecentlyInfectedSums | cascades/timeseries_cascades.py:37 | the prefix sums of `recently_infected` give back `total_infected` |
| TimeseriesCascades.ProportionInfected | cascades/timeseries_cascades.py:34 | the proportion is the total over `max(1, nodes)`; for `nodes ≤ 1` it is the total itself; it is in [0, 1] whenever the total does not exceed the node count |
| TimeseriesCascades.EngineHistoryTotals | cascades/timeseries_cascades.py:20-26 | on a history the engine produced, `ever_infected` after row k is exactly entry k's key set, and row k's total is its size |
| MonteCarloCascades.RunSeed | cascades/monte_carlo_cascades.py:13-20 | run i is seeded with `base + 17·i` |
| MonteCarloCascades.SeedsAcceptedMeans | cascades/monte_carlo_cascades.py:15-20 | numpy accepts every one of the first n run seeds iff it accepts the first and the last |
| MonteCarloCascades.RunConfig | cascades/monte_carlo_cascades.py:16-21 | each run copies `fraction_infected`, `influence_probability` and `iterations`, takes seed `base + 17·run`, and leaves every other field at its dataclass default |
| MonteCarloCascades.RunSeedsDistinct | cascades/monte_carlo_cascades.py:13-20 | distinct runs get distinct seeds |
| MonteCarloCascades.FinalReach | cascades/monte_carlo_cascades.py:23-24 | the final reach exists iff the history is non-empty (`iloc[-1]` raises otherwise) |
| MonteCarloCascades.FinalReachIsLastRow | cascades/monte_carlo_cascades.py:23-24 | the final reach is the last row's `total_infected`, whatever node count the time series uses |
| MonteCarloCascades.OneRun | cascades/monte_carlo_cascades.py:16-24 | one run leaves the graph's nodes, edges, weights and activity as they were |
| MonteCarloCascades.Runs | cascades/monte_carlo_cascades.py:12-24 | n runs produce exactly n values and change nothing in the graph but its influence |
| MonteCarloCascades.CascadeSizeMonteCarlo | cascades/monte_carlo_cascades.py:7-25 | exactly `runs` values; none, and the graph untouched, when `runs ≤ 0` |
| MonteCarloCascades.RunsPrefix | cascades/monte_carlo_cascades.py:15-24 | the values of the first i runs do not depend on how many runs follow |
| MonteCarloCascades.MonteCarloValue | cascades/monte_carlo_cascades.py:15-24 | value i is the number of nodes in the last entry of the engine run with seed `seed + 17·i` on the graph the earlier runs left; it lies between `int(n × fraction)` and n; run i+1 starts from run i's influence |
| MonteCarloCascades.InfluenceCarriesOver | cascades/monte_carlo_cascades.py:22 | the graph run i+1 starts from carries run i's starting influence, amplified on the nodes run i activated beyond its seeds |
| MonteCarloCascades.RunsNotIsolated | cascades/monte_carlo_cascades.py:22 | a node run i activated beyond its seeds, with positive influence, starts run i+1 with a strictly larger influence |
| MonteCarloCascades.RunsSucceedWith | cascades/monte_carlo_cascades.py:15-24 | if each run succeeds on every graph with the same nodes and an influence on each of them, the first n runs succeed and hand on an influence for every node |
| MonteCarloCascades.OneRunSucceeds | cascades/monte_carlo_cascades.py:16-24 | one run with a seed numpy accepts, a valid sample size, at least one tick and an influence on every node succeeds and keeps an influence on every node |
| MonteCarloCascades.RunsSucceed | cascades/monte_carlo_cascades.py:15-24 | with every run seed accepted, a valid sample size, at least one tick and an influence on every node, the first n runs succeed |
| MonteCarloCascades.MonteCarloSucceeds | cascades/monte_carlo_cascades.py:15-24 | with every run seed `seed + 17·i` in [0, 2³² − 1], a valid sample size, at least one tick and an influence on every node, all runs succeed |
| MonteCarloCascades.SeedOutOfRangeFails | cascades/monte_carlo_cascades.py:20-22 | a run whose seed `seed + 17·i` lies outside [0, 2³² − 1] makes the whole call fail, even when `seed` itself is in range |
| MonteCarloCascades.NoTicksFails | cascades/monte_carlo_cascades.py:24 | with no ticks, any positive number of runs fails on the empty frame |
| GraphBuilders.RoundUpToEven | builders/graph_builders.py:20-21 | an odd link count is raised by one, so the result is even and at most one above the request |
| GraphBuilders.WsLinks | builders/graph_builders.py:15-22 | the Watts-Strogatz neighbour count is at least 2, at most `nodes − 1` when there are at least 3 nodes, and is 2, `nodes − 1` or the rounded request |
| GraphBuilders.WsOddRequestRoundsUp | builders/graph_builders.py:20-22 | an odd request within range becomes the next even number |
| GraphBuilders.WsLinksOddAfterClamp | builders/graph_builders.py:20-22 | the clamp runs after the rounding, so with an even node count and a large request the count passed on is odd (`nodes − 1`) |
| GraphBuilders.EdgeLinks | builders/graph_builders.py:27 | the attachment count lies in [1, nodes − 1] when there are at least 2 nodes, and an in-range request passes unchanged |
| GraphBuilders.BuildGraph | builders/graph_builders.py:4-37 | succeeds iff the name is ER, WS, BA or HK, and raises the unknown-topology error otherwise; every family gets the configured seed and node count; ER passes `directed` through with no clamp; WS, BA and HK get the clamped counts |
| DashboardBuilders.Degree | builders/dashboard_builders.py:31 | a node's degree is the length of its neighbour list |
| DashboardBuilders.DegreeBound | builders/dashboard_builders.py:31 | no node has more neighbours than the graph has nodes |
| DashboardBuilders.MaxDegree | builders/dashboard_builders.py:31-32 | 1 for an empty graph; otherwise a degree some node has, which bounds every node's degree |
| DashboardBuilders.Ratio | builders/dashboard_builders.py:35-36 | the degree ratio lies in [0, 1]; it is 0 at degree 0 and 1 at the largest degree |
| DashboardBuilders.RatioMonotone | builders/dashboard_builders.py:35-36 | a larger degree never gives a smaller ratio |
| DashboardBuilders.ActivityOf | builders/dashboard_builders.py:35 | for a degree not above the maximum, `0.2 + 0.8·deg/maxdeg` lies in [0.2, 1.0] |
| DashboardBuilders.InfluenceOf | builders/dashboard_builders.py:36 | for a degree not above the maximum, `0.02 + 0.08·deg/maxdeg` lies in [0.02, 0.10] |
| DashboardBuilders.InitAttributes | builders/dashboard_builders.py:29-36 | fails (division by zero) iff the graph has nodes but no edge; otherwise every node gets an activity in [0.2, 1.0] and an influence in [0.02, 0.10], and the topology is unchanged |
| DashboardBuilders.AttributesFollowDegree | builders/dashboard_builders.py:34-36 | activity is `0.2 + 0.8·deg/maxdeg` and influence is `0.02 + 0.08·deg/maxdeg`; both are monotone in degree |
| DashboardBuilders.AttributeExtremes | builders/dashboard_builders.py:35-36 | a node of the largest degree gets 1.0 and 0.10; a node of degree 0 gets 0.2 and 0.02 |
| DashboardBuilders.BuildDashboard | builders/dashboard_builders.py:29-44 | an unknown topology and a generator's error are reported as such; on success there is one history entry and one time-series row per tick, and one value per run |
| DashboardBuilders.DashboardOrder | builders/dashboard_builders.py:42-44 | the time series is taken of the single cascade's history with the node count as n; the Monte Carlo runs start from the graph that cascade already amplified |
| DashboardBuilders.DashboardSucceeds | builders/dashboard_builders.py:29-44 | a known topology whose generator succeeds with a graph that is empty or has an edge, seeds in [0, 2³² − 1] for the single cascade and for every Monte Carlo run, a fraction in [0, 1] and at least one tick make the modelled part succeed |
| DashboardBuilders.DashboardNeedsTicks | builders/dashboard_builders.py:42-44 | with no ticks and at least one run, the dashboard fails in the Monte Carlo call |

## Left out

- The UI is not modelled: `main.py`, the layout modules, `builders/metric_builders.py`, and `builders/dashboard_builders.py` from line 46 on. They cover rendering, callbacks and float statistics, and none of them feeds the diffusion pipeline.
- The networkx generators and networkx's internal iteration orders are not modelled. Generators are an opaque parameter, and node and neighbour orders are the sequences stored in the graph.
- The networkx generators' own argument checks are not modelled (for instance, `barabasi_albert_graph` raises when its attachment count is not below the node count, so BA with at most one node fails). The generator parameter may return an error for any call, and `DashboardSucceeds` requires that it does not.
- The internals of Python's and numpy's generators are not modelled. Only "one seeded draw stream, one seeded permutation and one set order per seed" is kept.
- CPython's hash-table order of set iteration is not modelled. `setOrder` may be any order that visits each member exactly once, and it depends only on the seed, the tick and the set's contents.
- `builders/dashboard_builders.py` lines 38-40 (`graph_metrics`, `compute_layout`) are not modelled. They read the graph without changing any attribute the pipeline uses, and the layout is seeded with the same cascade seed whose range `DashboardSucceeds` already requires.
- IEEE rounding is not modelled. Probabilities, weights and the factor 1.02 are exact reals.
- Monte Carlo values are whole numbers here. The source converts them to floats and returns a numpy array.
- numpy's handling of a negative sample size is not modelled: it is folded into the same error as a sample larger than the population.
- Graph degree is the length of the adjacency list. This matches networkx for simple undirected graphs; self-loops and directed ER graphs are not distinguished.
- When the engine's `KeyError` interrupts a tick, the source has already multiplied the influences of some nodes. The model returns only the error and does not describe that partially mutated graph.
- The aggregator's `current_node_state` is written but never read, so it is not modelled.
- `TimeseriesCascades.Timeseries`: an `"iteration"` key present with value `None` (where `int(None)` raises) is treated like a missing key, because the entry type cannot tell them apart.
- `DashboardBuilders.BuildDashboard`: the contract does not name the error of each later stage. The success conditions are stated by `DashboardSucceeds` and `DashboardNeedsTicks` instead.
- `CustomCascades.RunCascade`: its own contract states only the sample-size error. The missing-influence error and its absence are stated by `CustomCascades.Amplify`, `CustomCascades.Step` and `CascadeProperties.RunSucceeds`.
