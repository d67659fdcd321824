/** The pure decisions of `AzureLeaseProvider`: how it names blobs and containers and how
    it reclassifies the exceptions of the blob store. */
module AzureRules {
  import opened Wrappers
  import opened Errors
  import opened LeasePolicies
  import opened Casing

  /** The container used when `ContainerName` is not set. */
  const DefaultContainerName: string := "genericleases"
  /** The length limit passed to the name provider for a container name. */
  const MaxContainerNameLength: int := 63

  /** The reclassification inside each blob step of `AcquireAsync`: a bad request (400)
      or an `ArgumentOutOfRangeException` (a bad duration) becomes an
      `InvalidOperationException`; anything else passes through. */
  function StepError(e: Error): (r: Error)
    ensures r == InvalidOperation <==> e == RequestFailed(400) || e == ArgumentOutOfRange || e == InvalidOperation
    ensures r != InvalidOperation ==> r == e
  {
    if e == RequestFailed(400) || e == ArgumentOutOfRange then InvalidOperation else e
  }

  /** The outer handler of `AcquireAsync`: a storage failure with status 409 (the blob is
      leased by someone else) becomes a `LeaseAcquisitionUnsuccessfulException` that
      carries the policy and the storage failure; everything else is rethrown as is. */
  function AcquireFailure(policy: LeasePolicy, e: Error): (r: Error)
    ensures r.LeaseAcquisitionUnsuccessful? && !e.LeaseAcquisitionUnsuccessful?
            ==> e == RequestFailed(409) && r == LeaseAcquisitionUnsuccessful(policy, Some(e))
    ensures e != RequestFailed(409) ==> r == e
  {
    if e.RequestFailed? && e.status == 409 then LeaseAcquisitionUnsuccessful(policy, Some(e)) else e
  }

  /** What a failing blob step of `AcquireAsync` finally throws. */
  function BlobStepFailure(policy: LeasePolicy, e: Error): Error
  {
    AcquireFailure(policy, StepError(e))
  }

  /** The error contract of the blob steps: a conflict becomes a failed acquisition, a bad
      request or bad duration an invalid operation, and every other error (an
      initialisation failure included) is passed on unchanged. */
  lemma BlobStepFailureClassified(policy: LeasePolicy, e: Error)
    ensures e == RequestFailed(409)
            ==> BlobStepFailure(policy, e) == LeaseAcquisitionUnsuccessful(policy, Some(RequestFailed(409)))
    ensures e == RequestFailed(400) || e == ArgumentOutOfRange ==> BlobStepFailure(policy, e) == InvalidOperation
    ensures e != RequestFailed(409) && e != RequestFailed(400) && e != ArgumentOutOfRange
            ==> BlobStepFailure(policy, e) == e
  {
  }

  /** Only a conflict turns into a failed acquisition: a blob step reports
      `LeaseAcquisitionUnsuccessfulException` for a store error that is not one exactly
      when the store itself raised a 409. */
  lemma OnlyConflictIsUnsuccessful(policy: LeasePolicy, e: Error)
    requires !e.LeaseAcquisitionUnsuccessful?
    ensures BlobStepFailure(policy, e).LeaseAcquisitionUnsuccessful? <==> e == RequestFailed(409)
  {
  }
}
