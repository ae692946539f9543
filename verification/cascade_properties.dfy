/** Properties of `run_custom_cascade`: the activity gate and the activation
    rule of a single broadcaster, and the run-level invariants (the active set
    only grows, every history entry records it with status 1, each infected
    node is amplified exactly once and the seeds never). */
module CascadeProperties {
  import opened Results
  import opened Graphs
  import opened History
  import opened Config
  import opened Randomness
  import opened CustomCascades

  lemma {:induction false} CountFreshIgnores(s: seq<Node>, seen: set<Node>, v: Node)
    requires v !in s
    ensures CountFresh(s, seen + {v}) == CountFresh(s, seen)
  {
    if s != [] {
      assert v !in s[1..];
      CountFreshIgnores(s[1..], seen, v);
    }
  }

  /** Closed form of the activation rule: the j-th neighbour is activated
      when it is not in `seen` and its draw, which is the one after the draws
      of the fresh neighbours listed before it, is below `strength * weight`. */
  predicate Activates(g: Graph, draws: Draws, u: Node, strength: real, nbrs: seq<Node>, seen: set<Node>, base: nat, j: nat)
    requires j < |nbrs|
  {
    nbrs[j] !in seen && draws(base + CountFresh(nbrs[..j], seen)) < InfectionProbability(strength, EdgeWeight(g, u, nbrs[j]))
  }

  /** The neighbour loop draws once per neighbour that is not yet activated. */
  lemma {:induction false} SpreadDraws(g: Graph, draws: Draws, u: Node, strength: real, nbrs: seq<Node>, st: Tick)
    requires st.newly <= st.activated
    requires Distinct(nbrs)
    ensures Spread(g, draws, u, strength, nbrs, st).cursor == st.cursor + CountFresh(nbrs, st.activated)
    decreases |nbrs|
  {
    if nbrs != [] {
      var v := nbrs[0];
      var rest := nbrs[1..];
      assert Distinct(rest);
      assert v !in rest;
      if v in st.activated {
        SpreadDraws(g, draws, u, strength, rest, st);
      } else {
        var next :=
          if draws(st.cursor) < InfectionProbability(strength, EdgeWeight(g, u, v)) then Tick(st.activated + {v}, st.newly + {v}, st.cursor + 1)
          else st.(cursor := st.cursor + 1);
        assert Spread(g, draws, u, strength, nbrs, st) == Spread(g, draws, u, strength, rest, next);
        SpreadDraws(g, draws, u, strength, rest, next);
        CountFreshIgnores(rest, st.activated, v);
      }
    }
  }

  /** The neighbour loop activates exactly the neighbours the closed-form
      rule `Activates` selects. */
  lemma {:induction false} SpreadRule(g: Graph, draws: Draws, u: Node, strength: real, nbrs: seq<Node>, st: Tick)
    requires st.newly <= st.activated
    requires Distinct(nbrs)
    ensures forall j {:trigger Activates(g, draws, u, strength, nbrs, st.activated, st.cursor, j)} :: 0 <= j < |nbrs| ==>
      (nbrs[j] in Spread(g, draws, u, strength, nbrs, st).activated - st.activated
       <==> Activates(g, draws, u, strength, nbrs, st.activated, st.cursor, j))
    decreases |nbrs|, 1
  {
    if nbrs != [] {
      if nbrs[0] in st.activated {
        SpreadRuleSkip(g, draws, u, strength, nbrs, st);
      } else {
        SpreadRuleFresh(g, draws, u, strength, nbrs, st);
      }
    }
  }

  lemma {:induction false} SpreadRuleSkip(g: Graph, draws: Draws, u: Node, strength: real, nbrs: seq<Node>, st: Tick)
    requires st.newly <= st.activated
    requires Distinct(nbrs)
    requires nbrs != [] && nbrs[0] in st.activated
    ensures forall j {:trigger Activates(g, draws, u, strength, nbrs, st.activated, st.cursor, j)} :: 0 <= j < |nbrs| ==>
      (nbrs[j] in Spread(g, draws, u, strength, nbrs, st).activated - st.activated
       <==> Activates(g, draws, u, strength, nbrs, st.activated, st.cursor, j))
    decreases |nbrs|, 0
  {
    var rest := nbrs[1..];
    assert Distinct(rest);
    var r := Spread(g, draws, u, strength, nbrs, st);
    assert r == Spread(g, draws, u, strength, rest, st);
    SpreadRule(g, draws, u, strength, rest, st);
    forall j | 0 <= j < |nbrs|
      ensures nbrs[j] in r.activated - st.activated
              <==> Activates(g, draws, u, strength, nbrs, st.activated, st.cursor, j)
    {
      if j > 0 {
        assert nbrs[j] == rest[j - 1];
        assert rest[j - 1] in r.activated - st.activated
               <==> Activates(g, draws, u, strength, rest, st.activated, st.cursor, j - 1);
        assert Activates(g, draws, u, strength, nbrs, st.activated, st.cursor, j)
               == Activates(g, draws, u, strength, rest, st.activated, st.cursor, j - 1) by {
          assert nbrs[..j][1..] == rest[..j - 1];
        }
      }
    }
  }

  /** Once a fresh first neighbour has had its draw, whether or not it was
      activated, the rule for a later neighbour is the rule on the rest of
      the list from the next draw on. */
  lemma ActivatesShift(g: Graph, draws: Draws, u: Node, strength: real, nbrs: seq<Node>, seen: set<Node>, seen': set<Node>, base: nat, j: nat)
    requires Distinct(nbrs)
    requires 0 < j < |nbrs|
    requires nbrs[0] !in seen
    requires seen' == seen || seen' == seen + {nbrs[0]}
    ensures Activates(g, draws, u, strength, nbrs, seen, base, j)
            == Activates(g, draws, u, strength, nbrs[1..], seen', base + 1, j - 1)
  {
    var rest := nbrs[1..];
    assert nbrs[j] == rest[j - 1] && nbrs[j] != nbrs[0];
    assert nbrs[..j][1..] == rest[..j - 1];
    assert nbrs[0] !in rest[..j - 1];
    CountFreshIgnores(rest[..j - 1], seen, nbrs[0]);
  }

  lemma {:induction false} SpreadRuleFresh(g: Graph, draws: Draws, u: Node, strength: real, nbrs: seq<Node>, st: Tick)
    requires st.newly <= st.activated
    requires Distinct(nbrs)
    requires nbrs != [] && nbrs[0] !in st.activated
    ensures forall j {:trigger Activates(g, draws, u, strength, nbrs, st.activated, st.cursor, j)} :: 0 <= j < |nbrs| ==>
      (nbrs[j] in Spread(g, draws, u, strength, nbrs, st).activated - st.activated
       <==> Activates(g, draws, u, strength, nbrs, st.activated, st.cursor, j))
    decreases |nbrs|, 0
  {
    var v := nbrs[0];
    var rest := nbrs[1..];
    assert Distinct(rest);
    assert v !in rest;
    var r := Spread(g, draws, u, strength, nbrs, st);
    var next :=
      if draws(st.cursor) < InfectionProbability(strength, EdgeWeight(g, u, v)) then Tick(st.activated + {v}, st.newly + {v}, st.cursor + 1)
      else st.(cursor := st.cursor + 1);
    assert r == Spread(g, draws, u, strength, rest, next);
    SpreadRule(g, draws, u, strength, rest, next);
    forall j | 0 <= j < |nbrs|
      ensures nbrs[j] in r.activated - st.activated
              <==> Activates(g, draws, u, strength, nbrs, st.activated, st.cursor, j)
    {
      if j == 0 {
        assert nbrs[..0] == [];
      } else {
        assert nbrs[j] == rest[j - 1] && nbrs[j] != v;
        assert rest[j - 1] in r.activated - next.activated
               <==> Activates(g, draws, u, strength, rest, next.activated, next.cursor, j - 1);
        ActivatesShift(g, draws, u, strength, nbrs, st.activated, next.activated, st.cursor, j);
      }
    }
  }

  /** The activity roll: a draw strictly above the node's activity (0.0 when
      the attribute is missing) costs one draw and changes nothing else; a
      draw equal to it passes. A passing node then draws once per neighbour
      not yet activated, and activates the j-th neighbour iff that draw is
      below its influence (0.0 when missing) times the edge weight. */
  lemma ActivityGate(g: Graph, influence: map<Node, real>, draws: Draws, u: Node, st: Tick)
    requires WellFormed(g)
    requires u in g.adj
    requires st.newly <= st.activated
    ensures draws(st.cursor) > Lookup(g.activity, u, 0.0) ==>
      Attempt(g, influence, draws, u, st) == st.(cursor := st.cursor + 1)
    ensures draws(st.cursor) <= Lookup(g.activity, u, 0.0) ==>
      Attempt(g, influence, draws, u, st).cursor == st.cursor + 1 + CountFresh(Neighbours(g, u), st.activated)
    ensures forall j :: 0 <= j < |Neighbours(g, u)| ==>
      (Neighbours(g, u)[j] in Attempt(g, influence, draws, u, st).activated - st.activated
       <==> draws(st.cursor) <= Lookup(g.activity, u, 0.0)
            && Activates(g, draws, u, Lookup(influence, u, 0.0), Neighbours(g, u), st.activated, st.cursor + 1, j))
  {
    var next := st.(cursor := st.cursor + 1);
    if draws(st.cursor) <= Lookup(g.activity, u, 0.0) {
      SpreadDraws(g, draws, u, Lookup(influence, u, 0.0), Neighbours(g, u), next);
      SpreadRule(g, draws, u, Lookup(influence, u, 0.0), Neighbours(g, u), next);
    }
  }

  lemma AmplifiedNothing(m: map<Node, real>)
    ensures Amplified(m, {}) == m
  {
  }

  /** Amplifying two disjoint sets one after the other amplifies each node of
      their union exactly once. */
  lemma AmplifiedCompose(m: map<Node, real>, first: set<Node>, second: set<Node>)
    requires first !! second
    ensures Amplified(Amplified(m, first), second) == Amplified(m, first + second)
  {
    var lhs := Amplified(Amplified(m, first), second);
    var rhs := Amplified(m, first + second);
    assert lhs.Keys == rhs.Keys;
    forall v | v in lhs
      ensures lhs[v] == rhs[v]
    {
    }
  }

  /** The invariant of the tick loop, relative to the initial active set
      `init` and the influence map `influence0` the call started with. */
  ghost predicate Inv(g: Graph, init: set<Node>, influence0: map<Node, real>, s: RunState) {
    && init <= s.active <= NodeSet(g)
    && s.influence == Amplified(influence0, s.active - init)
    && EngineHistory(s.history)
    && (forall i :: 0 <= i < |s.history| ==> init <= StatusKeys(s.history[i]) <= s.active)
    && (|s.history| > 0 ==> StatusKeys(s.history[|s.history| - 1]) == s.active)
  }

  /** Recording a superset of every key set so far keeps a history's
      engine shape. */
  lemma AppendRecord(h: seq<Entry>, active: set<Node>)
    requires EngineHistory(h)
    requires forall i :: 0 <= i < |h| ==> StatusKeys(h[i]) <= active
    ensures EngineHistory(h + [Record(|h|, active)])
  {
    var h' := h + [Record(|h|, active)];
    forall i | 0 <= i < |h'|
      ensures h'[i] == Record(i, StatusKeys(h'[i]))
    {
      if i < |h| {
        assert h'[i] == h[i];
      }
    }
    forall i, j | 0 <= i <= j < |h'|
      ensures StatusKeys(h'[i]) <= StatusKeys(h'[j])
    {
      if j < |h| {
        assert h'[i] == h[i] && h'[j] == h[j];
      } else if i < |h| {
        assert h'[i] == h[i];
      }
    }
  }

  lemma StepPreservesInv(g: Graph, src: RandomSource, init: set<Node>, influence0: map<Node, real>, s: RunState)
    requires WellFormed(g)
    requires ValidSource(src)
    requires Inv(g, init, influence0, s)
    ensures Step(g, src, s).Ok? ==> Inv(g, init, influence0, Step(g, src, s).value)
  {
    var r := Step(g, src, s);
    if r.Ok? {
      TickPreservesInv(g, init, influence0, s, r.value);
    }
  }

  /** Any successor state of the shape `Step` guarantees keeps the invariant. */
  lemma TickPreservesInv(g: Graph, init: set<Node>, influence0: map<Node, real>, s: RunState, s': RunState)
    requires Inv(g, init, influence0, s)
    requires s.active <= s'.active <= NodeSet(g)
    requires s'.influence == Amplified(s.influence, s'.active - s.active)
    requires s'.history == s.history + [Record(|s.history|, s'.active)]
    ensures Inv(g, init, influence0, s')
  {
    var a := s.active;
    var a' := s'.active;
    assert s'.influence == Amplified(influence0, a' - init) by {
      AmplifiedCompose(influence0, a - init, a' - a);
      assert (a - init) + (a' - a) == a' - init;
    }
    AppendRecord(s.history, a');
    AppendBounded(s.history, init, a, a');
  }

  /** Appending the record of `a'` to a history whose key sets lie between
      `init` and `a` keeps every key set between `init` and `a'`. */
  lemma AppendBounded(h: seq<Entry>, init: set<Node>, a: set<Node>, a': set<Node>)
    requires init <= a <= a'
    requires forall i :: 0 <= i < |h| ==> init <= StatusKeys(h[i]) <= a
    ensures forall i :: 0 <= i < |h| + 1 ==> init <= StatusKeys((h + [Record(|h|, a')])[i]) <= a'
  {
    var h' := h + [Record(|h|, a')];
    forall i | 0 <= i < |h'|
      ensures init <= StatusKeys(h'[i]) <= a'
    {
      if i < |h| {
        assert h'[i] == h[i];
      }
    }
  }

  /** Any property of states that holds initially and that `Step` carries
      from a state to its successor holds after every number of ticks. */
  lemma {:induction false} IterateKeeps(g: Graph, src: RandomSource, s0: RunState, n: nat, p: RunState -> bool)
    requires WellFormed(g)
    requires ValidSource(src)
    requires s0.active <= NodeSet(g)
    requires p(s0)
    requires forall s: RunState {:trigger Step(g, src, s)} :: s.active <= NodeSet(g) && p(s) && Step(g, src, s).Ok? ==> p(Step(g, src, s).value)
    ensures Iterate(g, src, s0, n).Ok? ==> p(Iterate(g, src, s0, n).value)
    decreases n
  {
    if n > 0 {
      IterateKeeps(g, src, s0, n - 1, p);
    }
  }

  lemma IteratePreservesInv(g: Graph, src: RandomSource, init: set<Node>, influence0: map<Node, real>, s0: RunState, n: nat)
    requires WellFormed(g)
    requires ValidSource(src)
    requires Inv(g, init, influence0, s0)
    ensures Iterate(g, src, s0, n).Ok? ==> Inv(g, init, influence0, Iterate(g, src, s0, n).value)
  {
    forall s: RunState | s.active <= NodeSet(g) && Inv(g, init, influence0, s) && Step(g, src, s).Ok?
      ensures Inv(g, init, influence0, Step(g, src, s).value)
    {
      StepPreservesInv(g, src, init, influence0, s);
    }
    IterateKeeps(g, src, s0, n, (s: RunState) => Inv(g, init, influence0, s));
  }

  /** The invariant holds of the state the call starts from. */
  lemma InitialInv(g: Graph, cfg: CascadeConfig, rng: Rng)
    requires WellFormed(g)
    requires ValidRng(rng)
    requires InitialActive(g, cfg, rng).Ok?
    ensures Inv(g, InitialActive(g, cfg, rng).value, g.influence,
                RunState(InitialActive(g, cfg, rng).value, g.influence, 0, []))
  {
    var init := InitialActive(g, cfg, rng).value;
    assert init - init == {};
    AmplifiedNothing(g.influence);
  }

  /** The final state of a successful call satisfies the invariant. */
  lemma RunInv(g: Graph, cfg: CascadeConfig, rng: Rng)
    requires WellFormed(g)
    requires ValidRng(rng)
    requires RunCascade(g, cfg, rng).Ok?
    ensures InitialActive(g, cfg, rng).Ok?
    ensures
      var init := InitialActive(g, cfg, rng).value;
      var r := Iterate(g, rng(cfg.seed), RunState(init, g.influence, 0, []), TickCount(cfg.iterations));
      && r.Ok?
      && RunCascade(g, cfg, rng).value == CascadeOutcome(r.value.history, r.value.influence)
      && Inv(g, init, g.influence, r.value)
  {
    var init := InitialActive(g, cfg, rng).value;
    InitialInv(g, cfg, rng);
    IteratePreservesInv(g, rng(cfg.seed), init, g.influence, RunState(init, g.influence, 0, []), TickCount(cfg.iterations));
  }

  /** The history has one entry per tick; entry i is tick i and maps every
      activated node to 1; the key sets only grow, always contain the initial
      sample and never leave the graph. */
  lemma RunHistory(g: Graph, cfg: CascadeConfig, rng: Rng)
    requires WellFormed(g)
    requires ValidRng(rng)
    requires RunCascade(g, cfg, rng).Ok?
    ensures InitialActive(g, cfg, rng).Ok?
    ensures
      var h := RunCascade(g, cfg, rng).value.history;
      && |h| == TickCount(cfg.iterations)
      && EngineHistory(h)
      && (forall i :: 0 <= i < |h| ==> h[i].iteration == Some(i))
      && (forall i :: 0 <= i < |h| ==> forall v :: v in StatusOf(h[i]) ==> StatusOf(h[i])[v] == 1)
      && (forall i :: 0 <= i < |h| ==> InitialActive(g, cfg, rng).value <= StatusKeys(h[i]) <= NodeSet(g))
  {
    RunInv(g, cfg, rng);
    var h := RunCascade(g, cfg, rng).value.history;
    forall i | 0 <= i < |h|
      ensures h[i].iteration == Some(i)
      ensures forall v :: v in StatusOf(h[i]) ==> StatusOf(h[i])[v] == 1
    {
      assert h[i] == Record(i, StatusKeys(h[i]));
    }
  }

  /** The influence the call leaves behind: every node infected during the
      run (activated at the end but not in the initial sample) is multiplied
      by 1.02 exactly once; the seeds and every other node keep their value. */
  lemma RunAmplification(g: Graph, cfg: CascadeConfig, rng: Rng)
    requires WellFormed(g)
    requires ValidRng(rng)
    requires RunCascade(g, cfg, rng).Ok?
    ensures InitialActive(g, cfg, rng).Ok?
    ensures
      var out := RunCascade(g, cfg, rng).value;
      var init := InitialActive(g, cfg, rng).value;
      && (|out.history| == 0 ==> out.influence == g.influence)
      && (|out.history| > 0 ==>
            out.influence == Amplified(g.influence, StatusKeys(out.history[|out.history| - 1]) - init))
  {
    RunInv(g, cfg, rng);
    var init := InitialActive(g, cfg, rng).value;
    if TickCount(cfg.iterations) == 0 {
      assert init - init == {};
      AmplifiedNothing(g.influence);
    }
  }

  lemma {:induction false} IterateFromNothing(g: Graph, src: RandomSource, s0: RunState, n: nat)
    requires WellFormed(g)
    requires ValidSource(src)
    requires s0.active == {}
    ensures Iterate(g, src, s0, n).Ok?
    ensures Iterate(g, src, s0, n).value.active == {}
    decreases n
  {
    if n > 0 {
      IterateFromNothing(g, src, s0, n - 1);
      var s := Iterate(g, src, s0, n - 1).value;
      var t := TickBroadcast(g, src, s);
      assert t.newly == {};
    }
  }

  /** When `int(n * fraction_infected)` is 0 and numpy accepts the seed,
      nothing is ever activated: the call succeeds and every recorded status map is empty. */
  lemma NoSeedsNoSpread(g: Graph, cfg: CascadeConfig, rng: Rng)
    requires WellFormed(g)
    requires ValidRng(rng)
    requires ValidSeed(cfg.seed)
    requires InitialCount(|g.nodes|, cfg.fractionInfected) == 0
    ensures RunCascade(g, cfg, rng).Ok?
    ensures forall i :: 0 <= i < |RunCascade(g, cfg, rng).value.history| ==>
      StatusOf(RunCascade(g, cfg, rng).value.history[i]) == map[]
  {
    var init := InitialActive(g, cfg, rng).value;
    InitialActiveSize(g, cfg, rng);
    assert init == {};
    var s0 := RunState(init, g.influence, 0, []);
    IterateFromNothing(g, rng(cfg.seed), s0, TickCount(cfg.iterations));
    RunInv(g, cfg, rng);
    var h := RunCascade(g, cfg, rng).value.history;
    forall i | 0 <= i < |h|
      ensures StatusOf(h[i]) == map[]
    {
      assert StatusKeys(h[i]) == {};
    }
  }

  lemma {:induction false} IterateSucceeds(g: Graph, src: RandomSource, s0: RunState, n: nat)
    requires WellFormed(g)
    requires ValidSource(src)
    requires s0.active <= NodeSet(g)
    requires NodeSet(g) <= s0.influence.Keys
    ensures Iterate(g, src, s0, n).Ok?
    decreases n
  {
    if n > 0 {
      IterateSucceeds(g, src, s0, n - 1);
      var s := Iterate(g, src, s0, n - 1).value;
      assert NodeSet(g) <= s.influence.Keys;
      assert Step(g, src, s).Ok?;
    }
  }

  /** The only failures are the seed, the sample size and a missing
      influence attribute: with a seed numpy accepts, a valid size and every
      node carrying `influence`, the call succeeds. */
  lemma RunSucceeds(g: Graph, cfg: CascadeConfig, rng: Rng)
    requires WellFormed(g)
    requires ValidRng(rng)
    requires ValidSeed(cfg.seed)
    requires 0 <= InitialCount(|g.nodes|, cfg.fractionInfected) <= |g.nodes|
    requires NodeSet(g) <= g.influence.Keys
    ensures RunCascade(g, cfg, rng).Ok?
  {
    var init := InitialActive(g, cfg, rng).value;
    IterateSucceeds(g, rng(cfg.seed), RunState(init, g.influence, 0, []), TickCount(cfg.iterations));
  }

  lemma {:induction false} IterateExtends(g: Graph, src: RandomSource, s0: RunState, n: nat, m: nat)
    requires WellFormed(g)
    requires ValidSource(src)
    requires s0.active <= NodeSet(g)
    requires n <= m
    ensures Iterate(g, src, s0, m).Ok? ==>
      Iterate(g, src, s0, n).Ok? && Iterate(g, src, s0, n).value.history <= Iterate(g, src, s0, m).value.history
    decreases m
  {
    if n < m {
      IterateExtends(g, src, s0, n, m - 1);
    }
  }

  /** Running more ticks with the same seed only extends the history: the
      shorter run is a prefix of the longer one. */
  lemma MoreTicksExtendHistory(g: Graph, cfg: CascadeConfig, rng: Rng, more: int)
    requires WellFormed(g)
    requires ValidRng(rng)
    requires cfg.iterations <= more
    ensures RunCascade(g, cfg.(iterations := more), rng).Ok? ==>
      && RunCascade(g, cfg, rng).Ok?
      && RunCascade(g, cfg, rng).value.history <= RunCascade(g, cfg.(iterations := more), rng).value.history
  {
    var init := InitialActive(g, cfg, rng);
    if init.Ok? {
      IterateExtends(g, rng(cfg.seed), RunState(init.value, g.influence, 0, []),
                     TickCount(cfg.iterations), TickCount(more));
    }
  }
}
