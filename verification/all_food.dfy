/** The all-food page: the retry loop with the visible-error policy, and no de-duplication. */
module AllFood {
  import opened Maybe
  import opened Http
  import opened Catalog
  import opened Retry

  datatype State = State(loading: bool, error: Option<string>, allFoods: seq<Food>)

  const Initial := State(true, None, [])

  const LoadError := "Failed to load foods. Please try again."

  /** The page once the given outcomes have arrived. */
  function Mount(outcomes: seq<Response>): State {
    match Run(outcomes).verdict
    case Loaded(d) => State(false, None, Flatten(d))
    case Exhausted => Initial.(error := Some(LoadError), loading := false)
    case Pending => Initial
  }

  /**
   * The visible-error policy: on the first 200 within MaxRetries attempts the
   * error is cleared, loading ends and the foods are that response flattened
   * (not de-duplicated); when all MaxRetries attempts fail, the error message
   * is set and loading ends with no foods; until then the page is loading.
   */
  lemma MountPolicy(outcomes: seq<Response>)
    ensures forall i: nat :: FirstSuccessAt(outcomes, i) ==>
      Mount(outcomes) == State(false, None, Flatten(outcomes[i].data))
    ensures |outcomes| >= MaxRetries && FailedBefore(outcomes, MaxRetries) ==>
      Mount(outcomes) == State(false, Some(LoadError), [])
    ensures |outcomes| < MaxRetries && FailedBefore(outcomes, |outcomes|) ==>
      Mount(outcomes) == Initial
  {
    RunExhausted(outcomes);
    RunPending(outcomes);
    forall i: nat | FirstSuccessAt(outcomes, i)
      ensures Mount(outcomes) == State(false, None, Flatten(outcomes[i].data))
    {
      RunLoaded(outcomes, outcomes[i].data);
    }
  }
}
