/** `cascade_timeseries`: a fold over a history that accumulates the set of
    nodes ever seen in state 1 or 2, and derives per row the cumulative total,
    its proportion of the node count, and the increment over the previous
    row. The pandas frame is a sequence of rows. */
module TimeseriesCascades {
  import opened Results
  import opened Graphs
  import opened History

  datatype Row = Row(iter: int, totalInfected: nat, proportionInfected: real, recentlyInfected: int)

  /** `state in (1, 2)` */
  predicate CountsAsInfected(state: int) {
    state == 1 || state == 2
  }

  /** The nodes an entry reports as infected or removed. */
  function Infected(e: Entry): set<Node> {
    set v | v in StatusOf(e) && CountsAsInfected(StatusOf(e)[v])
  }

  /** `ever_infected` after folding over `es`: it holds every node any entry
      reports as infected or removed. */
  function EverInfected(es: seq<Entry>): (r: set<Node>)
    ensures forall i :: 0 <= i < |es| ==> Infected(es[i]) <= r
    decreases |es|
  {
    if es == [] then {}
    else
      var init := es[..|es| - 1];
      assert forall i :: 0 <= i < |init| ==> es[i] == init[i];
      EverInfected(init) + Infected(es[|es| - 1])
  }

  /** `len(ever_infected)` after row k: at least as many nodes as row k
      itself reports. */
  function Total(es: seq<Entry>, k: nat): (t: nat)
    requires k < |es|
    ensures |Infected(es[k])| <= t
  {
    var prefix := es[..k + 1];
    assert prefix[k] == es[k];
    SubsetSize(Infected(es[k]), EverInfected(prefix));
    |EverInfected(prefix)|
  }

  /** `int(iteration.get("iteration", len(iteration_number)))` */
  function IterOf(e: Entry, k: nat): int {
    if e.iteration.Some? then e.iteration.value else k
  }

  /** `max(1, nodes)` */
  function Denominator(nodes: int): (d: int)
    ensures d >= 1 && d >= nodes
    ensures d == 1 || d == nodes
  {
    if nodes > 1 then nodes else 1
  }

  /** `cascade_timeseries(iterations, nodes)`: one row per entry, in order. */
  function Timeseries(es: seq<Entry>, nodes: int): (rows: seq<Row>)
    ensures |rows| == |es|
    ensures forall k :: 0 <= k < |es| ==> rows[k].iter == IterOf(es[k], k)
  {
    seq(|es|, k requires 0 <= k < |es| =>
      Row(IterOf(es[k], k),
          Total(es, k),
          Total(es, k) as real / Denominator(nodes) as real,
          if k == 0 then Total(es, 0) else Total(es, k) - Total(es, k - 1)))
  }

  /** Reference definition: a node is in `ever_infected` iff some entry
      reports it in state 1 or 2; a missing or `None` status reports nothing. */
  lemma {:induction false} EverInfectedMembership(es: seq<Entry>, v: Node)
    ensures v in EverInfected(es) <==>
      exists i :: 0 <= i < |es| && v in StatusOf(es[i]) && CountsAsInfected(StatusOf(es[i])[v])
    decreases |es|
  {
    if es != [] {
      var init := es[..|es| - 1];
      EverInfectedMembership(init, v);
      if v in EverInfected(init) {
        var i :| 0 <= i < |init| && v in StatusOf(init[i]) && CountsAsInfected(StatusOf(init[i])[v]);
        assert es[i] == init[i];
      }
      if exists i :: 0 <= i < |es| && v in StatusOf(es[i]) && CountsAsInfected(StatusOf(es[i])[v]) {
        var i :| 0 <= i < |es| && v in StatusOf(es[i]) && CountsAsInfected(StatusOf(es[i])[v]);
        if i < |init| {
          assert es[i] == init[i];
        }
      }
    }
  }

  lemma {:induction false} EverInfectedGrows(es: seq<Entry>, i: nat, j: nat)
    requires i <= j <= |es|
    ensures EverInfected(es[..i]) <= EverInfected(es[..j])
    decreases j - i
  {
    if i < j {
      EverInfectedGrows(es, i, j - 1);
      assert es[..j][..j - 1] == es[..j - 1];
    }
  }

  lemma SubsetCardinality(a: set<Node>, b: set<Node>)
    requires a <= b
    ensures |a| <= |b|
  {
    assert b == a + (b - a);
    assert a * (b - a) == {};
  }

  /** `total_infected` never decreases from one row to a later one. */
  lemma TotalsNonDecreasing(es: seq<Entry>, nodes: int)
    ensures forall k, l :: 0 <= k <= l < |es| ==>
      Timeseries(es, nodes)[k].totalInfected <= Timeseries(es, nodes)[l].totalInfected
  {
    forall k, l | 0 <= k <= l < |es|
      ensures Total(es, k) <= Total(es, l)
    {
      EverInfectedGrows(es, k + 1, l + 1);
      SubsetCardinality(EverInfected(es[..k + 1]), EverInfected(es[..l + 1]));
    }
  }

  /** `recently_infected` is never negative, and the first row's equals its
      total (`fillna` with the total). */
  lemma RecentlyInfectedBounds(es: seq<Entry>, nodes: int)
    ensures |es| > 0 ==> Timeseries(es, nodes)[0].recentlyInfected == Timeseries(es, nodes)[0].totalInfected
    ensures forall k :: 0 <= k < |es| ==> Timeseries(es, nodes)[k].recentlyInfected >= 0
  {
    TotalsNonDecreasing(es, nodes);
    var rows := Timeseries(es, nodes);
    forall k | 0 < k < |es|
      ensures rows[k].recentlyInfected >= 0
    {
      assert rows[k - 1].totalInfected <= rows[k].totalInfected;
    }
  }

  function SumRecent(rows: seq<Row>): int {
    if rows == [] then 0 else SumRecent(rows[..|rows| - 1]) + rows[|rows| - 1].recentlyInfected
  }

  /** Each row's increment is its total minus the previous row's total, and
      the first row's increment is its total. */
  predicate Differenced(rows: seq<Row>) {
    && (|rows| > 0 ==> rows[0].recentlyInfected == rows[0].totalInfected)
    && forall k :: 0 < k < |rows| ==> rows[k].recentlyInfected == rows[k].totalInfected - rows[k - 1].totalInfected
  }

  /** Increments of a differenced sequence telescope back to the totals. */
  lemma {:induction false} SumRecentTelescopes(rows: seq<Row>, k: nat)
    requires Differenced(rows)
    requires k < |rows|
    ensures SumRecent(rows[..k + 1]) == rows[k].totalInfected
  {
    if k > 0 {
      SumRecentTelescopes(rows, k - 1);
      assert rows[..k + 1][..k] == rows[..k];
    } else {
      assert rows[..1][..0] == [];
    }
  }

  /** The prefix sums of `recently_infected` reconstruct `total_infected`. */
  lemma RecentlyInfectedSums(es: seq<Entry>, nodes: int, k: nat)
    requires k < |es|
    ensures SumRecent(Timeseries(es, nodes)[..k + 1]) == Timeseries(es, nodes)[k].totalInfected
  {
    var rows := Timeseries(es, nodes);
    assert Differenced(rows);
    SumRecentTelescopes(rows, k);
  }

  /** `proportion_infected` divides by `max(1, nodes)`, never by zero: for an
      empty (or negative) node count it is the total itself, and it lies in
      [0, 1] whenever the total does not exceed the node count. */
  lemma ProportionInfected(es: seq<Entry>, nodes: int)
    ensures forall k :: 0 <= k < |es| ==>
      Timeseries(es, nodes)[k].proportionInfected
        == Timeseries(es, nodes)[k].totalInfected as real / Denominator(nodes) as real
    ensures nodes <= 1 ==> forall k :: 0 <= k < |es| ==>
      Timeseries(es, nodes)[k].proportionInfected == Timeseries(es, nodes)[k].totalInfected as real
    ensures forall k :: 0 <= k < |es| && Timeseries(es, nodes)[k].totalInfected <= nodes ==>
      0.0 <= Timeseries(es, nodes)[k].proportionInfected <= 1.0
  {
    var rows := Timeseries(es, nodes);
    var d := Denominator(nodes);
    assert nodes <= 1 ==> d == 1;
    assert nodes > 1 ==> d == nodes;
    forall k | 0 <= k < |es|
      ensures nodes <= 1 ==> rows[k].proportionInfected == rows[k].totalInfected as real
      ensures rows[k].totalInfected <= nodes ==> 0.0 <= rows[k].proportionInfected <= 1.0
    {
      Fraction(rows[k].totalInfected, d);
    }
  }

  lemma Fraction(x: nat, d: int)
    requires d >= 1
    ensures d == 1 ==> x as real / d as real == x as real
    ensures 0.0 <= x as real / d as real
    ensures x <= d ==> x as real / d as real <= 1.0
  {
  }

  /** On a history the engine produced, `ever_infected` after row k is
      exactly the key set of entry k. */
  lemma {:induction false} EngineEverInfected(es: seq<Entry>, k: nat)
    requires EngineHistory(es)
    requires k < |es|
    ensures EverInfected(es[..k + 1]) == StatusKeys(es[k])
  {
    var prefix := es[..k + 1];
    assert prefix[k] == es[k];
    assert Infected(es[k]) == StatusKeys(es[k]) by {
      var keys := StatusKeys(es[k]);
      assert es[k] == Record(k, keys);
      assert StatusOf(es[k]) == StatusMap(keys);
      forall v | v in keys
        ensures v in Infected(es[k])
      {
        assert StatusOf(es[k])[v] == 1;
      }
    }
    if k > 0 {
      EngineEverInfected(es, k - 1);
      assert prefix[..k] == es[..k];
      assert StatusKeys(es[k - 1]) <= StatusKeys(es[k]);
    } else {
      assert prefix[..0] == [];
    }
  }

  /** On a history the engine produced, the cumulative total at row k is the
      number of nodes in entry k's status map. */
  lemma EngineHistoryTotals(es: seq<Entry>, nodes: int, k: nat)
    requires EngineHistory(es)
    requires k < |es|
    ensures EverInfected(es[..k + 1]) == StatusKeys(es[k])
    ensures Timeseries(es, nodes)[k].totalInfected == |StatusKeys(es[k])|
  {
    EngineEverInfected(es, k);
    RowTotal(es, nodes, k);
  }

  /** Row k's total is the size of `ever_infected` after entry k. */
  lemma RowTotal(es: seq<Entry>, nodes: int, k: nat)
    requires k < |es|
    ensures Timeseries(es, nodes)[k].totalInfected == |EverInfected(es[..k + 1])|
  {
  }
}
