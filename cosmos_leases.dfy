/** The request sequences of `CosmosDbLeaseProvider`'s three operations, as functions of
    the store, the environment's actions before each request and the clock. The
    provider's methods perform these requests one by one against its container; these
    functions say what the sequence as a whole decides and leaves behind. */
module CosmosLeases {
  import opened Wrappers
  import opened Time
  import opened Errors
  import opened LeasePolicies
  import opened CosmosStore

  /** The document `AcquireAsync` writes for a free lease; the store sets its ETag and
      write time. */
  function NewLeaseDoc(rootPartitionKey: Option<string>, objectId: string, leaseId: string, ttl: int): Doc
  {
    Doc(rootPartitionKey, objectId, leaseId, ttl, 0, 0, 0)
  }

  /** `OwnsLease`: the reply's document names the given lease id. A reply that is not a
      document (an error body) cannot be parsed, which is reported as `Other`. */
  function OwnsLease(response: Response, id: Option<string>): (r: Result<bool, Error>)
    ensures r.Success? <==> response.Ok?
    ensures r == Success(true) <==> response.Ok? && id == Some(response.doc.leaseId)
  {
    if response.Ok? then Success(id == Some(response.doc.leaseId)) else Failure(Other)
  }

  /** The ownership test that ends an acquisition. */
  function Ownership(response: Response, leaseId: string, policy: LeasePolicy): Outcome<Error>
  {
    match OwnsLease(response, Some(leaseId))
    case Failure(e) => Fail(e)
    case Success(owned) => if owned then Pass else Fail(LeaseAcquisitionUnsuccessful(policy, None))
  }

  /** `AcquireAsync` from the read on: read the document; when there is none, create one
      naming `leaseId` (a conflict means another party was faster, any other failure is
      an invalid operation); then the lease is acquired exactly when the document read
      or written names `leaseId`. Actions 0 and 1 precede the read and the create. */
  function AcquireSteps(s: Store, rootPartitionKey: Option<string>, policy: LeasePolicy, duration: Option<Span>,
                        objectId: string, leaseId: string, actions: nat -> Action, now: Timestamp): (r: (Outcome<Error>, Store))
    ensures Valid(s) ==> Valid(r.1)
  {
    var key := BuildPartitionKey(rootPartitionKey, objectId);
    var (read, s1) := Read(s, key, actions(0), now);
    if read.NotFound? then
      var (created, s2) := Create(s1, key, NewLeaseDoc(rootPartitionKey, objectId, leaseId, LeaseTtl(duration)), actions(1), now);
      if created.Conflict? then (Fail(LeaseAcquisitionUnsuccessful(policy, None)), s2)
      else if !created.Ok? then (Fail(InvalidOperation), s2)
      else (Ownership(created, leaseId, policy), s2)
    else (Ownership(read, leaseId, policy), s1)
  }

  /** How an extension ends: extended in place, handed over to a fresh acquisition after
      `requests` requests, or refused. */
  datatype ExtendStep = Extended | Reacquire(requests: nat) | Refused(error: Error)

  /** `ExtendAsync` up to the optional re-acquisition: read the document (none: acquire
      again; a failure: invalid operation; another owner: not acquired), then patch it
      with the ETag read (gone: acquire again; a conflict: not acquired). Any other reply
      to the patch, a failed ETag precondition (412) included, counts as extended. */
  function ExtendSteps(s: Store, key: PartitionKey, leaseId: Option<string>, policy: LeasePolicy,
                       actions: nat -> Action, now: Timestamp): (r: (ExtendStep, Store))
    ensures Valid(s) ==> Valid(r.1)
  {
    var (read, s1) := Read(s, key, actions(0), now);
    if read.NotFound? then (Reacquire(1), s1)
    else if !read.Ok? then (Refused(InvalidOperation), s1)
    else if OwnsLease(read, leaseId) != Success(true) then (Refused(LeaseAcquisitionUnsuccessful(policy, None)), s1)
    else
      var (patched, s2) := PatchIncrement(s1, key, read.doc.etag, actions(1), now);
      if patched.NotFound? then (Reacquire(2), s2)
      else if patched.Conflict? then (Refused(LeaseAcquisitionUnsuccessful(policy, None)), s2)
      else (Extended, s2)
  }

  /** `ReleaseAsync` after its argument checks: read the document (none: already
      released; a failure: invalid operation; another owner: already released), then
      delete it with the ETag read (gone: already released; any other failure, a failed
      ETag precondition included: invalid operation). */
  function ReleaseSteps(s: Store, key: PartitionKey, leaseId: Option<string>,
                        actions: nat -> Action, now: Timestamp): (r: (Outcome<Error>, Store))
    ensures Valid(s) ==> Valid(r.1)
  {
    var (read, s1) := Read(s, key, actions(0), now);
    if read.NotFound? then (Pass, s1)
    else if !read.Ok? then (Fail(InvalidOperation), s1)
    else if OwnsLease(read, leaseId) != Success(true) then (Pass, s1)
    else
      var (deleted, s2) := Delete(s1, key, read.doc.etag, actions(1), now);
      if deleted.NotFound? then (Pass, s2)
      else if !deleted.Ok? then (Fail(InvalidOperation), s2)
      else (Pass, s2)
  }

  /** A successful acquisition leaves the store holding a document under the lease's key
      that names the acquired lease id. A failed one is a lost race, an invalid
      operation, or an unreadable reply. */
  lemma AcquireStepsOutcome(s: Store, rootPartitionKey: Option<string>, policy: LeasePolicy, duration: Option<Span>,
                            objectId: string, leaseId: string, actions: nat -> Action, now: Timestamp)
    ensures var (o, t) := AcquireSteps(s, rootPartitionKey, policy, duration, objectId, leaseId, actions, now);
            var key := BuildPartitionKey(rootPartitionKey, objectId);
            (o.Pass? ==> key in t.docs && t.docs[key].leaseId == leaseId)
            && (o.Fail? ==> o.error in {LeaseAcquisitionUnsuccessful(policy, None), InvalidOperation, Other})
  {
  }

  /** On a free key and a quiet environment the acquisition creates the lease document:
      the object id, the lease id, the time to live from the duration, a zero
      acquisition token, and the store's next ETag. */
  lemma AcquireFreeKey(s: Store, rootPartitionKey: Option<string>, policy: LeasePolicy, duration: Option<Span>,
                       objectId: string, leaseId: string, actions: nat -> Action, now: Timestamp)
    requires BuildPartitionKey(rootPartitionKey, objectId) !in s.docs
    requires actions(0) == Quiet && actions(1) == Quiet
    ensures var key := BuildPartitionKey(rootPartitionKey, objectId);
            AcquireSteps(s, rootPartitionKey, policy, duration, objectId, leaseId, actions, now)
            == (Pass, Store(s.docs[key := Doc(rootPartitionKey, objectId, leaseId, LeaseTtl(duration), 0, s.nextEtag, now)],
                            s.nextEtag + 1))
  {
  }

  /** A document that names another lease id refuses the acquisition and stays as it
      is; one that names the same id grants it again without a write. */
  lemma AcquireExistingKey(s: Store, rootPartitionKey: Option<string>, policy: LeasePolicy, duration: Option<Span>,
                           objectId: string, leaseId: string, actions: nat -> Action, now: Timestamp)
    requires BuildPartitionKey(rootPartitionKey, objectId) in s.docs
    requires actions(0) == Quiet
    ensures var key := BuildPartitionKey(rootPartitionKey, objectId);
            AcquireSteps(s, rootPartitionKey, policy, duration, objectId, leaseId, actions, now)
            == (if s.docs[key].leaseId == leaseId then Pass else Fail(LeaseAcquisitionUnsuccessful(policy, None)), s)
  {
  }

  /** The race the create guards against: when another party writes the document
      between the read and the create, the acquisition is refused and the other
      party's document is kept. */
  lemma AcquireLosesRace(s: Store, rootPartitionKey: Option<string>, policy: LeasePolicy, duration: Option<Span>,
                         objectId: string, leaseId: string, other: string, ttl: int, actions: nat -> Action, now: Timestamp)
    requires BuildPartitionKey(rootPartitionKey, objectId) !in s.docs
    requires actions(0) == Quiet && actions(1) == ForeignUpsert(other, ttl)
    ensures var (o, t) := AcquireSteps(s, rootPartitionKey, policy, duration, objectId, leaseId, actions, now);
            o == Fail(LeaseAcquisitionUnsuccessful(policy, None))
            && t.docs[BuildPartitionKey(rootPartitionKey, objectId)].leaseId == other
  {
  }

  /** The owner's extension in a quiet environment patches its document in place: same
      owner, acquisition token one higher, a fresh ETag. */
  lemma ExtendByOwner(s: Store, key: PartitionKey, leaseId: string, policy: LeasePolicy, actions: nat -> Action, now: Timestamp)
    requires Valid(s) && key in s.docs && s.docs[key].leaseId == leaseId
    requires actions(0) == Quiet && actions(1) == Quiet
    ensures var (step, t) := ExtendSteps(s, key, Some(leaseId), policy, actions, now);
            step == Extended && key in t.docs
            && t.docs[key].leaseId == leaseId
            && t.docs[key].acquisitionToken == s.docs[key].acquisitionToken + 1
            && t.docs[key].etag != s.docs[key].etag
  {
    PatchWithCurrentEtag(s, key, now);
  }

  /** A document owned by someone else refuses the extension without a write, and a
      missing document hands over to a fresh acquisition after one request. */
  lemma ExtendByOther(s: Store, key: PartitionKey, leaseId: Option<string>, policy: LeasePolicy, actions: nat -> Action, now: Timestamp)
    requires actions(0) == Quiet
    ensures key in s.docs && Some(s.docs[key].leaseId) != leaseId
            ==> ExtendSteps(s, key, leaseId, policy, actions, now) == (Refused(LeaseAcquisitionUnsuccessful(policy, None)), s)
    ensures key !in s.docs ==> ExtendSteps(s, key, leaseId, policy, actions, now) == (Reacquire(1), s)
  {
  }

  /** The extension treats a failed ETag precondition as success: when another party takes
      the document over between the read and the patch, the extension still reports
      success although the store now names the other party. */
  lemma ExtendOverlooksTakeover(s: Store, key: PartitionKey, leaseId: string, other: string, ttl: int,
                                policy: LeasePolicy, actions: nat -> Action, now: Timestamp)
    requires Valid(s) && key in s.docs && s.docs[key].leaseId == leaseId
    requires actions(0) == Quiet && actions(1) == ForeignUpsert(other, ttl)
    ensures var (step, t) := ExtendSteps(s, key, Some(leaseId), policy, actions, now);
            step == Extended && t.docs[key].leaseId == other
  {
    StaleEtagRefused(s, key, other, ttl, now);
  }

  /** After a successful release the store no longer holds a document under the key
      that names the lease, unless a request was failed with a bare 404. */
  lemma ReleasedMeansNotOwned(s: Store, key: PartitionKey, leaseId: Option<string>, actions: nat -> Action, now: Timestamp)
    requires actions(0) != Fault(404) && actions(1) != Fault(404)
    ensures var (o, t) := ReleaseSteps(s, key, leaseId, actions, now);
            o.Pass? ==> key !in t.docs || Some(t.docs[key].leaseId) != leaseId
  {
  }

  /** The owner's release in a quiet environment deletes exactly its document. */
  lemma ReleaseByOwner(s: Store, key: PartitionKey, leaseId: string, actions: nat -> Action, now: Timestamp)
    requires key in s.docs && s.docs[key].leaseId == leaseId
    requires actions(0) == Quiet && actions(1) == Quiet
    ensures ReleaseSteps(s, key, Some(leaseId), actions, now) == (Pass, Store(s.docs - {key}, s.nextEtag))
  {
  }

  /** When another party takes the document over between the read and the delete, the
      release fails with an invalid operation and the other party's document stays. */
  lemma ReleaseAfterTakeover(s: Store, key: PartitionKey, leaseId: string, other: string, ttl: int,
                             actions: nat -> Action, now: Timestamp)
    requires Valid(s) && key in s.docs && s.docs[key].leaseId == leaseId
    requires actions(0) == Quiet && actions(1) == ForeignUpsert(other, ttl)
    ensures var (o, t) := ReleaseSteps(s, key, Some(leaseId), actions, now);
            o == Fail(InvalidOperation) && t.docs[key].leaseId == other
  {
    StaleEtagRefused(s, key, other, ttl, now);
  }
}
