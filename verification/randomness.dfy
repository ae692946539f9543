/** What a run of the engine leaves to the runtime, made explicit: the two
    random generators it seeds with `cascade.seed`, and the order in which the
    interpreter iterates a set. `draws(k)` is the k-th value `random.random()`
    returns after seeding, and `permutation(n)` is `np.random.permutation(n)`
    after seeding: `np.random.choice(nodes, size=k, replace=False)` takes the
    first k indices of that permutation. `setOrder(t, s)` is the order in which
    `for node in s` visits the set `s` at tick t; CPython iterates an int set
    in hash-table order, which the program neither controls nor relies on, so
    the model only assumes that each member is visited exactly once. An `Rng`
    maps a seed to all three. */
module Randomness {
  import opened Graphs

  type Draws = nat -> real

  type SetOrder = (nat, set<Node>) -> seq<Node>

  datatype RandomSource = RandomSource(draws: Draws, permutation: nat -> seq<nat>, setOrder: SetOrder)

  type Rng = int -> RandomSource

  /** `np.random.seed` accepts exactly the seeds in [0, 2^32 - 1] and raises
      ValueError for any other; `random.seed` accepts every integer. */
  const MaxSeed: int := 0xFFFF_FFFF

  predicate ValidSeed(seed: int) {
    0 <= seed <= MaxSeed
  }

  predicate IsPermutation(p: seq<nat>, n: nat) {
    && |p| == n
    && Distinct(p)
    && forall i :: 0 <= i < |p| ==> p[i] < n
  }

  /** Every permutation is a genuine permutation of its population size, and
      every set order visits each member of the set exactly once. */
  ghost predicate ValidSource(src: RandomSource) {
    && (forall n: nat :: IsPermutation(src.permutation(n), n))
    && (forall t: nat, s: set<Node> :: Listing(src.setOrder(t, s), s))
  }

  /** Every seed yields a valid source. */
  ghost predicate ValidRng(rng: Rng) {
    forall seed: int :: ValidSource(rng(seed))
  }

  /** Python's `int()` on a float: truncation toward zero. */
  function Trunc(x: real): (t: int)
    ensures 0.0 <= x ==> 0 <= t && t as real <= x < t as real + 1.0
    ensures x < 0.0 ==> t <= 0 && t as real - 1.0 < x <= t as real
  {
    if x >= 0.0 then x.Floor else -((-x).Floor)
  }

  /** `int(len(nodes) * cascade.fraction_infected)`: a fraction in [0, 1]
      gives a sample size numpy accepts, and a negative one a size that is
      not positive. */
  function InitialCount(n: nat, fraction: real): (c: int)
    ensures 0.0 <= fraction <= 1.0 ==> 0 <= c <= n
    ensures fraction < 0.0 ==> c <= 0
  {
    assert 0.0 <= fraction <= 1.0 ==> n as real * fraction <= n as real * 1.0;
    Trunc(n as real * fraction)
  }

  /** `set(np.random.choice(nodes, size=count, replace=False))`: the nodes
      at the first `count` positions of the permutation; only nodes of the
      population are sampled. */
  function Sample(nodes: seq<Node>, perm: seq<nat>, count: nat): (r: set<Node>)
    requires IsPermutation(perm, |nodes|)
    requires count <= |nodes|
    ensures forall v :: v in r ==> v in nodes
    decreases count
  {
    if count == 0 then {}
    else Sample(nodes, perm, count - 1) + {nodes[perm[count - 1]]}
  }

  /** Reference definition: a node is sampled iff it sits at one of the first
      `count` positions of the permutation. */
  lemma {:induction false} SampleMembership(nodes: seq<Node>, perm: seq<nat>, count: nat, v: Node)
    requires IsPermutation(perm, |nodes|)
    requires count <= |nodes|
    ensures v in Sample(nodes, perm, count) <==> exists j :: 0 <= j < count && nodes[perm[j]] == v
    decreases count
  {
    if count > 0 {
      SampleMembership(nodes, perm, count - 1, v);
      if v in Sample(nodes, perm, count - 1) {
        var j :| 0 <= j < count - 1 && nodes[perm[j]] == v;
        assert 0 <= j < count && nodes[perm[j]] == v;
      }
    }
  }

  /** A node at a later position of the permutation is not among the first
      `k` sampled ones. */
  lemma {:induction false} SampleFresh(nodes: seq<Node>, perm: seq<nat>, k: nat, j: nat)
    requires Distinct(nodes)
    requires IsPermutation(perm, |nodes|)
    requires k <= j < |nodes|
    ensures nodes[perm[j]] !in Sample(nodes, perm, k)
    decreases k
  {
    if k > 0 {
      SampleFresh(nodes, perm, k - 1, j);
      assert perm[k - 1] != perm[j];
    }
  }

  /** Sampling without replacement from distinct nodes yields exactly
      `count` of them. */
  lemma {:induction false} SampleSize(nodes: seq<Node>, perm: seq<nat>, count: nat)
    requires Distinct(nodes)
    requires IsPermutation(perm, |nodes|)
    requires count <= |nodes|
    ensures |Sample(nodes, perm, count)| == count
    decreases count
  {
    if count > 0 {
      var prev := Sample(nodes, perm, count - 1);
      var v := nodes[perm[count - 1]];
      SampleSize(nodes, perm, count - 1);
      SampleFresh(nodes, perm, count - 1, count - 1);
      AddFresh(prev, v);
    }
  }

  lemma AddFresh(a: set<Node>, v: Node)
    requires v !in a
    ensures |a + {v}| == |a| + 1
  {
  }
}
