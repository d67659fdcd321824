/** The retry policies of the leasing core: each decides, from the exception alone,
    whether a failed attempt may be retried. All of them test only the OUTERMOST
    exception type, so an `AggregateException` is judged as itself and never by its
    inner exceptions. */
module RetryPolicies {
  import opened Errors

  /** `RetryUntilLeaseAcquiredPolicy.CanRetry`: retry only a failed acquisition. */
  function RetryUntilLeaseAcquired(e: Error): (retry: bool)
    ensures e.LeaseAcquisitionUnsuccessful? ==> retry
    ensures e.InvalidOperation? || e.InitializationFailure? || e.RequestFailed? ==> !retry
    ensures e.Aggregate? ==> !retry
  {
    e.LeaseAcquisitionUnsuccessful?
  }

  /** `DoNotRetryOnLeaseAcquisitionUnsuccessfulPolicy.CanRetry`: retry anything except
      a failed acquisition. */
  function DoNotRetryOnLeaseAcquisitionUnsuccessful(e: Error): (retry: bool)
    ensures e.LeaseAcquisitionUnsuccessful? ==> !retry
    ensures e.InvalidOperation? || e.InitializationFailure? || e.RequestFailed? ==> retry
    ensures e.Aggregate? ==> retry
  {
    !e.LeaseAcquisitionUnsuccessful?
  }

  /** `DoNotRetryOnInitializationFailurePolicy.CanRetry`. */
  function DoNotRetryOnInitializationFailure(e: Error): (retry: bool)
    ensures e.InitializationFailure? ==> !retry
    ensures e.LeaseAcquisitionUnsuccessful? || e.InvalidOperation? || e.RequestFailed? ==> retry
    ensures e.Aggregate? ==> retry
  {
    !e.InitializationFailure?
  }

  /** `DoNotRetryOnConflictPolicy.CanRetry`: refuse only a storage failure with status 409. */
  function DoNotRetryOnConflict(e: Error): (retry: bool)
    ensures !retry <==> e == RequestFailed(409)
  {
    !(e.RequestFailed? && e.status == 409)
  }

  /** `DoNotRetryOnInvalidOperationPolicy.CanRetry`: despite its name it refuses only
      `ArgumentOutOfRangeException`; an `InvalidOperationException` IS retried. */
  function DoNotRetryOnInvalidOperation(e: Error): (retry: bool)
    ensures !retry <==> e == ArgumentOutOfRange
    ensures e.InvalidOperation? ==> retry
  {
    !e.ArgumentOutOfRange?
  }

  /** The two acquisition policies are exact complements. */
  lemma AcquisitionPoliciesComplementary(e: Error)
    ensures RetryUntilLeaseAcquired(e) == !DoNotRetryOnLeaseAcquisitionUnsuccessful(e)
  {
  }

  /** Only the outer type is examined: an aggregate wrapping a failed acquisition is not
      retried by the retry-until-acquired policy, and is retried by the try-once one. */
  lemma AggregateIsNotUnwrapped(inner: seq<Error>)
    requires exists i :: 0 <= i < |inner| && inner[i].LeaseAcquisitionUnsuccessful?
    ensures !RetryUntilLeaseAcquired(Aggregate(inner))
    ensures DoNotRetryOnLeaseAcquisitionUnsuccessful(Aggregate(inner))
  {
  }

  /** Likewise an aggregate wrapping an initialisation failure may be retried. */
  lemma AggregatedInitializationFailureRetried(cause: Error)
    ensures DoNotRetryOnInitializationFailure(Aggregate([InitializationFailure(cause)]))
  {
  }

  /** `DoNotRetryOnConflictPolicy` depends only on the kind of error and its status:
      every status but 409 may be retried, 400 and 412 included. */
  lemma ConflictPolicyStatuses(s: int)
    ensures DoNotRetryOnConflict(RequestFailed(s)) <==> s != 409
    ensures DoNotRetryOnConflict(RequestFailed(400)) && DoNotRetryOnConflict(RequestFailed(412))
  {
  }

  /** The policy combination the blob-store steps of `AzureLeaseProvider.AcquireAsync` run
      under, ASSUMING that the retry library's `AggregatePolicy` allows a retry only when
      every member policy does (the library is not part of this model). */
  function AzureStoreStepCanRetry(e: Error): (retry: bool)
    ensures retry <==> e != ArgumentOutOfRange && e != RequestFailed(409) && !e.InitializationFailure?
  {
    DoNotRetryOnInvalidOperation(e) && DoNotRetryOnConflict(e) && DoNotRetryOnInitializationFailure(e)
  }

  /** Under that assumption the `InvalidOperationException` a blob step raises for a bad
      name or duration is retried, while a conflict is not. */
  lemma AzureStepRetriesInvalidOperation()
    ensures AzureStoreStepCanRetry(InvalidOperation)
    ensures !AzureStoreStepCanRetry(RequestFailed(409))
    ensures AzureStoreStepCanRetry(RequestFailed(400))
  {
  }
}
