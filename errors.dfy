/** The exceptions the leasing core throws or passes through, as one datatype.
    Each constructor stands for an exception type; the fields are the parts of the
    exception the core inspects or sets. */
module Errors {
  import opened Wrappers
  import opened LeasePolicies

  datatype Error =
      /** `LeaseAcquisitionUnsuccessfulException`: carries the policy of the failed
          acquisition and, optionally, the store error that caused it. */
    | LeaseAcquisitionUnsuccessful(policy: LeasePolicy, cause: Option<Error>)
      /** `InvalidOperationException`: an invalid lease name or duration, or a store
          failure the provider reports as a bad request. */
    | InvalidOperation
    | ArgumentOutOfRange
    | ArgumentNull
      /** `ArgumentException`: a lease of another provider's type. */
    | Argument
      /** `RequestFailedException` of the storage client, with its HTTP status. */
    | RequestFailed(status: int)
      /** `InitializationFailureException`, whose inner exception is the cause. */
    | InitializationFailure(reason: Error)
    | Tokenization
      /** `IndexOutOfRangeException`: a token with too few lines. */
    | IndexOutOfRange
      /** `FormatException`: a number in a token that `long.Parse` rejects. */
    | Format
      /** `OverflowException`: a number in a token outside the range of its type. */
    | Overflow
    | NullReference
      /** `AggregateException` with its inner exceptions, in order. */
    | Aggregate(innerErrors: seq<Error>)
      /** Any other exception (for example a store reply the provider cannot parse). */
    | Other

  predicate IsLeaseAcquisitionUnsuccessful(e: Error) {
    e.LeaseAcquisitionUnsuccessful?
  }
}
