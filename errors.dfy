/** Optional values (Go's nil pointers). */
module Wrappers {
  datatype Option<+T> = None | Some(value: T)
}

/** Go's `time.Time`, kept opaque: only equality of instants matters here. */
module Clock {
  datatype Time = Time(unixNano: int)
}

/**
 * The error values of the service: the sentinel domain errors, failures
 * reported by the store, and `fmt.Errorf("...: %w", err)` wrapping.
 */
module Errors {

  /** The sentinel errors declared by the domain package. */
  datatype DomainError =
    | TeamNameEmpty
    | InvalidUser
    | TeamEmptyMembers
    | TeamExists
    | TeamNotFound
    | UserNotFound
    | InvalidPullRequest
    | PullRequestExists
    | PullRequestNotFound
    | NoAvailableCandidats
    | PullRequestIsMerged
    | NotAssigned

  /** An error value: a sentinel, a failure of a store operation, or a wrapped error. */
  datatype Error =
    | Domain(kind: DomainError)
    | Storage(op: string)
    | Wrapped(context: string, cause: Error)

  /** `errors.Is(err, target)`: does the wrap chain of `err` end in the sentinel `target`? */
  predicate Is(err: Error, target: DomainError)
  {
    match err
    case Domain(k) => k == target
    case Storage(_) => false
    case Wrapped(_, cause) => Is(cause, target)
  }

  /** The error is a store failure, possibly wrapped several times. */
  predicate IsStorageFailure(err: Error)
  {
    match err
    case Domain(_) => false
    case Storage(_) => true
    case Wrapped(_, cause) => IsStorageFailure(cause)
  }

  /** A wrapped store failure is never mistaken for a sentinel by `errors.Is`. */
  lemma {:induction false} StorageFailureIsNoSentinel(err: Error, target: DomainError)
    requires IsStorageFailure(err)
    ensures !Is(err, target)
  {
    match err
    case Storage(_) =>
    case Wrapped(_, cause) => StorageFailureIsNoSentinel(cause, target);
  }

  /** A wrap chain ends in at most one sentinel. */
  lemma {:induction false} SentinelUnique(err: Error, a: DomainError, b: DomainError)
    requires Is(err, a) && Is(err, b)
    ensures a == b
  {
    match err
    case Domain(_) =>
    case Wrapped(_, cause) => SentinelUnique(cause, a, b);
  }

  /** So the order in which a handler tests `errors.Is` against the sentinels never matters. */
  lemma SentinelsUnique(err: Error)
    ensures forall a, b | Is(err, a) && Is(err, b) :: a == b
  {
    forall a, b | Is(err, a) && Is(err, b)
      ensures a == b
    {
      SentinelUnique(err, a, b);
    }
  }

  /** The outcome of an operation that yields a value or an error. */
  datatype Result<+T> = Ok(value: T) | Err(error: Error)

  /** The outcome of a check that yields nothing or an error (Go's `error` return). */
  datatype Check = Pass | Fail(error: Error)
}
