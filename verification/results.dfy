/** Failure-compatible result type shared by every module of the model.
    The errors are the exceptions the Python code raises on the paths modelled. */
module Results {

  datatype Option<+T> = None | Some(value: T)

  datatype Error =
    | InvalidSeed(seed: int)                         // ValueError: np.random.seed rejects the seed
    | InvalidSampleSize(count: int, population: nat) // numpy's choice(..., replace=False) rejects the size
    | MissingInfluence                               // KeyError: a newly infected node has no "influence"
    | EmptyTimeseries                                // pandas iloc[-1] on an empty frame
    | UnknownTopology(name: string)                  // ValueError raised by build_graph
    | ZeroMaxDegree                                  // ZeroDivisionError in the attribute initialisation

  datatype Result<+T> = Ok(value: T) | Err(error: Error) {

    predicate IsFailure() {
      Err?
    }

    function PropagateFailure<U>(): Result<U>
      requires Err?
    {
      Err(error)
    }

    function Extract(): T
      requires Ok?
    {
      value
    }
  }
}
