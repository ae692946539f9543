/** One history entry, the dictionary `{"iteration": i, "status": {...}}` that
    the engine appends each tick and the time-series aggregator reads back.
    Both keys are optional on the reading side, and "status" may be `None`. */
module History {
  import opened Results
  import opened Graphs

  datatype Entry = Entry(iteration: Option<int>, status: Option<map<Node, int>>)

  /** `entry.get("status", {}) or {}` */
  function StatusOf(e: Entry): map<Node, int> {
    if e.status.Some? then e.status.value else map[]
  }

  function StatusKeys(e: Entry): set<Node> {
    StatusOf(e).Keys
  }

  /** `{node: 1 for node in activated}` */
  function StatusMap(active: set<Node>): (m: map<Node, int>)
    ensures m.Keys == active
    ensures forall v :: v in m ==> m[v] == 1
  {
    map v | v in active :: 1
  }

  /** The entry the engine records for tick `i` when `active` is the set of
      activated nodes at the end of the tick. */
  function Record(i: nat, active: set<Node>): (e: Entry)
    ensures e.iteration == Some(i)
    ensures StatusKeys(e) == active
  {
    Entry(Some(i), Some(StatusMap(active)))
  }

  /** The shape of every history the engine produces: entry i is tick i,
      every recorded node has status 1, and each entry's key set contains the
      key set of every earlier entry. */
  ghost predicate EngineHistory(h: seq<Entry>) {
    && (forall i :: 0 <= i < |h| ==> h[i] == Record(i, StatusKeys(h[i])))
    && (forall i, j :: 0 <= i <= j < |h| ==> StatusKeys(h[i]) <= StatusKeys(h[j]))
  }
}
