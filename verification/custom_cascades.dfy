/** `run_custom_cascade`: a seeded, discrete-time spread in which activated
    nodes stay active for ever. Each tick every active node takes one activity
    roll; a node that passes makes one activation roll per neighbour that is
    not yet activated, against `influence * weight`. Nodes activated during a
    tick spread only from the next tick on, and each has its `influence`
    multiplied by 1.02 once the tick is over. */
module CustomCascades {
  import opened Results
  import opened Graphs
  import opened History
  import opened Config
  import opened Randomness

  /** The working state of one tick: `activated_nodes`, `newly_infected`,
      and the index of the next value to be drawn from `random.random()`. */
  datatype Tick = Tick(activated: set<Node>, newly: set<Node>, cursor: nat)

  /** The state carried from tick to tick: `active_nodes`, the graph's
      current `influence` attribute, the draw cursor and the history so far. */
  datatype RunState = RunState(
    active: set<Node>,
    influence: map<Node, real>,
    cursor: nat,
    history: seq<Entry>)

  /** What one call returns: the history, and the `influence` attribute it
      leaves behind on the graph. */
  datatype CascadeOutcome = CascadeOutcome(history: seq<Entry>, influence: map<Node, real>)

  /** Number of elements of `s` not in `seen`: the activation draws made for
      a neighbour list when `seen` is the activated set. */
  function CountFresh(s: seq<Node>, seen: set<Node>): (c: nat)
    ensures c <= |s|
  {
    if s == [] then 0 else (if s[0] in seen then 0 else 1) + CountFresh(s[1..], seen)
  }

  /** `influence_strength * edge_weight` */
  function InfectionProbability(strength: real, weight: real): real {
    strength * weight
  }

  /** The neighbour loop of one broadcaster whose activity roll passed, with
      `strength` its influence read before the loop. */
  function Spread(g: Graph, draws: Draws, u: Node, strength: real, nbrs: seq<Node>, st: Tick): (r: Tick)
    requires st.newly <= st.activated
    ensures r.newly <= r.activated
    ensures st.activated <= r.activated && st.newly <= r.newly
    ensures r.activated - st.activated == r.newly - st.newly
    ensures forall v :: v in r.activated - st.activated ==> v in nbrs
    ensures st.cursor <= r.cursor
    decreases |nbrs|
  {
    if nbrs == [] then st
    else
      var v := nbrs[0];
      if v in st.activated then
        Spread(g, draws, u, strength, nbrs[1..], st)
      else if draws(st.cursor) < InfectionProbability(strength, EdgeWeight(g, u, v)) then
        var next := Tick(st.activated + {v}, st.newly + {v}, st.cursor + 1);
        var r := Spread(g, draws, u, strength, nbrs[1..], next);
        assert r.activated - st.activated == (r.activated - next.activated) + {v};
        assert r.newly - st.newly == (r.newly - next.newly) + {v};
        assert forall w :: w in nbrs[1..] ==> w in nbrs;
        r
      else
        Spread(g, draws, u, strength, nbrs[1..], st.(cursor := st.cursor + 1))
  }

  /** One iteration of `for node in active_nodes`: the activity roll, then
      the neighbour loop if the roll does not exceed the node's activity. */
  function Attempt(g: Graph, influence: map<Node, real>, draws: Draws, u: Node, st: Tick): (r: Tick)
    requires u in g.adj
    requires st.newly <= st.activated
    ensures r.newly <= r.activated
    ensures st.activated <= r.activated && st.newly <= r.newly
    ensures r.activated - st.activated == r.newly - st.newly
    ensures forall v :: v in r.activated - st.activated ==> Adjacent(g, u, v)
    ensures st.cursor < r.cursor
  {
    var next := st.(cursor := st.cursor + 1);
    if draws(st.cursor) > Lookup(g.activity, u, 0.0) then next
    else Spread(g, draws, u, Lookup(influence, u, 0.0), Neighbours(g, u), next)
  }

  /** The whole `for node in active_nodes` loop, in the order `order`. */
  function Broadcast(g: Graph, influence: map<Node, real>, draws: Draws, order: seq<Node>, st: Tick): (r: Tick)
    requires forall u :: u in order ==> u in g.adj
    requires st.newly <= st.activated
    ensures r.newly <= r.activated
    ensures st.activated <= r.activated && st.newly <= r.newly
    ensures r.activated - st.activated == r.newly - st.newly
    ensures forall v :: v in r.activated - st.activated ==> exists u :: u in order && Adjacent(g, u, v)
    ensures st.cursor + |order| <= r.cursor
    decreases |order|
  {
    if order == [] then st
    else
      var next := Attempt(g, influence, draws, order[0], st);
      var r := Broadcast(g, influence, draws, order[1..], next);
      assert r.activated - st.activated == (r.activated - next.activated) + (next.activated - st.activated);
      assert r.newly - st.newly == (r.newly - next.newly) + (next.newly - st.newly);
      assert forall w :: w in order[1..] ==> w in order;
      assert forall v :: v in r.activated - st.activated ==> exists w :: w in order && Adjacent(g, w, v) by {
        forall v | v in r.activated - st.activated
          ensures exists w :: w in order && Adjacent(g, w, v)
        {
          if v in next.activated - st.activated {
            assert order[0] in order && Adjacent(g, order[0], v);
          }
        }
      }
      r
  }

  /** `influence * (1 + CascadeConfig.preferential_amplification)` */
  function Boosted(influence: real): real {
    influence * AmplificationFactor
  }

  /** The influence map after multiplying the entries of `infected` by the
      amplification factor. */
  function Amplified(influence: map<Node, real>, infected: set<Node>): (m: map<Node, real>)
    ensures m.Keys == influence.Keys
  {
    map v | v in influence :: if v in infected then Boosted(influence[v]) else influence[v]
  }

  /** `graph.nodes[node]["influence"] *= 1.02` for every newly infected node;
      a node without the attribute raises KeyError. */
  function Amplify(influence: map<Node, real>, newly: set<Node>): (r: Result<map<Node, real>>)
    ensures r.Ok? <==> newly <= influence.Keys
    ensures r.Ok? ==> r.value.Keys == influence.Keys
    ensures r.Ok? ==> forall v :: v in newly ==> r.value[v] == Boosted(influence[v])
    ensures r.Ok? ==> forall v :: v in influence && v !in newly ==> r.value[v] == influence[v]
  {
    if newly <= influence.Keys then Ok(Amplified(influence, newly)) else Err(MissingInfluence)
  }

  /** The broadcast phase of one tick, iterating `active_nodes` in the
      order the runtime visits that set at this tick. */
  function TickBroadcast(g: Graph, src: RandomSource, s: RunState): (t: Tick)
    requires WellFormed(g)
    requires ValidSource(src)
    requires s.active <= NodeSet(g)
    ensures s.active <= t.activated <= NodeSet(g)
    ensures t.newly == t.activated - s.active
    ensures forall v :: v in t.newly ==> exists u :: u in s.active && Adjacent(g, u, v)
    ensures s.cursor + |s.active| <= t.cursor
  {
    var order := src.setOrder(|s.history|, s.active);
    assert Listing(order, s.active);
    assert forall u :: u in order ==> u in g.adj;
    ListingLength(order, s.active);
    var t := Broadcast(g, s.influence, src.draws, order, Tick(s.active, {}, s.cursor));
    assert t.activated <= NodeSet(g) by {
      forall v | v in t.activated - s.active
        ensures v in NodeSet(g)
      {
        var u :| u in order && Adjacent(g, u, v);
      }
    }
    t
  }

  /** One tick of the `for iteration in range(cascade.iterations)` loop:
      broadcast, amplify the newly infected, record the activated set. */
  function Step(g: Graph, src: RandomSource, s: RunState): (r: Result<RunState>)
    requires WellFormed(g)
    requires ValidSource(src)
    requires s.active <= NodeSet(g)
    ensures r.Ok? ==> s.active <= r.value.active <= NodeSet(g)
    ensures r.Ok? ==> forall v :: v in r.value.active - s.active ==> exists u :: u in s.active && Adjacent(g, u, v)
    ensures r.Ok? ==> r.value.influence == Amplified(s.influence, r.value.active - s.active)
    ensures r.Ok? ==> r.value.history == s.history + [Record(|s.history|, r.value.active)]
    ensures r.Ok? ==> s.cursor + |s.active| <= r.value.cursor
    ensures NodeSet(g) <= s.influence.Keys ==> r.Ok?
  {
    var t := TickBroadcast(g, src, s);
    var influence :- Amplify(s.influence, t.newly);
    Ok(RunState(t.activated, influence, t.cursor, s.history + [Record(|s.history|, t.activated)]))
  }

  /** `n` ticks from state `s0`. */
  function Iterate(g: Graph, src: RandomSource, s0: RunState, n: nat): (r: Result<RunState>)
    requires WellFormed(g)
    requires ValidSource(src)
    requires s0.active <= NodeSet(g)
    ensures r.Ok? ==> s0.active <= r.value.active <= NodeSet(g)
    ensures r.Ok? ==> |r.value.history| == |s0.history| + n
    ensures r.Ok? ==> s0.history <= r.value.history
    ensures r.Ok? ==> r.value.influence.Keys == s0.influence.Keys
    decreases n
  {
    if n == 0 then Ok(s0)
    else
      var s :- Iterate(g, src, s0, n - 1);
      Step(g, src, s)
  }

  /** `range(iterations)` is empty for a non-positive count. */
  function TickCount(iterations: int): nat {
    if iterations > 0 then iterations else 0
  }

  /** The initial active set: `int(n * fraction_infected)` nodes sampled
      without replacement, or numpy's ValueError when that size is negative
      or larger than the population. */
  function InitialActive(g: Graph, cfg: CascadeConfig, rng: Rng): (r: Result<set<Node>>)
    requires WellFormed(g)
    requires ValidRng(rng)
    ensures r.Ok? <==> 0 <= InitialCount(|g.nodes|, cfg.fractionInfected) <= |g.nodes|
    ensures r.Ok? ==> r.value <= NodeSet(g)
  {
    var count := InitialCount(|g.nodes|, cfg.fractionInfected);
    if count < 0 || count > |g.nodes| then Err(InvalidSampleSize(count, |g.nodes|))
    else
      var perm := rng(cfg.seed).permutation(|g.nodes|);
      assert ValidSource(rng(cfg.seed));
      SampleInGraph(g, perm, count);
      Ok(Sample(g.nodes, perm, count))
  }

  lemma SampleInGraph(g: Graph, perm: seq<nat>, count: nat)
    requires IsPermutation(perm, |g.nodes|)
    requires count <= |g.nodes|
    ensures Sample(g.nodes, perm, count) <= NodeSet(g)
  {
  }

  /** The initial active set has exactly `int(n * fraction_infected)` nodes. */
  lemma InitialActiveSize(g: Graph, cfg: CascadeConfig, rng: Rng)
    requires WellFormed(g)
    requires ValidRng(rng)
    requires InitialActive(g, cfg, rng).Ok?
    ensures |InitialActive(g, cfg, rng).value| == InitialCount(|g.nodes|, cfg.fractionInfected)
  {
    assert ValidSource(rng(cfg.seed));
    SampleSize(g.nodes, rng(cfg.seed).permutation(|g.nodes|), InitialCount(|g.nodes|, cfg.fractionInfected));
  }

  /** `run_custom_cascade(graph, cascade)`: both generators are seeded with
      `cascade.seed` (numpy rejects a seed outside [0, 2^32 - 1] before
      anything else happens), the draws start at index 0. */
  function RunCascade(g: Graph, cfg: CascadeConfig, rng: Rng): (r: Result<CascadeOutcome>)
    requires WellFormed(g)
    requires ValidRng(rng)
    ensures r.Ok? ==> |r.value.history| == TickCount(cfg.iterations)
    ensures r.Ok? ==> r.value.influence.Keys == g.influence.Keys
    ensures !ValidSeed(cfg.seed) ==> r == Err(InvalidSeed(cfg.seed))
    ensures ValidSeed(cfg.seed) && !(0 <= InitialCount(|g.nodes|, cfg.fractionInfected) <= |g.nodes|) ==>
      r == Err(InvalidSampleSize(InitialCount(|g.nodes|, cfg.fractionInfected), |g.nodes|))
  {
    if !ValidSeed(cfg.seed) then Err(InvalidSeed(cfg.seed))
    else
      var initial :- InitialActive(g, cfg, rng);
      var s0 := RunState(initial, g.influence, 0, []);
      var s :- Iterate(g, rng(cfg.seed), s0, TickCount(cfg.iterations));
      Ok(CascadeOutcome(s.history, s.influence))
  }
}
