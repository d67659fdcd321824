/** The document container `CosmosDbLeaseProvider` works against, as a value: a map from
    partition key to lease document and a counter from which every write draws a fresh
    ETag. Each request is preceded by an action of the environment (another party's
    writes, time-to-live expiry, a failing request), which is how the races the provider
    guards against are reached. */
module CosmosStore {
  import opened Wrappers
  import opened Time
  import opened Casing
  import opened LeasePolicies

  /** `CosmosDbLeaseProvider.RootPartitionKeyPath`. */
  const RootPartitionKeyPath: string := "/rpk"
  const IdPath: string := "/id"

  /** The parts of `ContainerProperties` the provider sets. */
  datatype ContainerProperties = ContainerProperties(id: string, partitionKeyPaths: seq<string>, defaultTimeToLive: int)

  /** `GetContainerProperties`: partitioned by root key and id, or by id alone; items do
      not expire unless they carry their own time to live. */
  function GetContainerProperties(containerId: string, useRootPartitionKey: bool): ContainerProperties
  {
    if useRootPartitionKey then ContainerProperties(containerId, [RootPartitionKeyPath, IdPath], -1)
    else ContainerProperties(containerId, [IdPath], -1)
  }

  /** A partition key, as the values added to its builder in order. */
  datatype PartitionKey = PartitionKey(values: seq<string>)

  /** `BuildPartitionKey`: the root partition key value (when configured) and then the
      object id. */
  function BuildPartitionKey(rootPartitionKey: Option<string>, objectId: string): PartitionKey
  {
    if rootPartitionKey.Some? then PartitionKey([rootPartitionKey.value, objectId]) else PartitionKey([objectId])
  }

  /** `GetLeaseObjectId`: the lower-cased lease name, or a lower-cased fresh id when the
      policy has no name. */
  function LeaseObjectId(name: Option<string>, freshId: string): string
  {
    Lower(name.GetOr(freshId))
  }

  /** The `ttl` written into a new lease document: the duration (or the default) in
      seconds, rounded half to even. */
  function LeaseTtl(duration: Option<Span>): int
  {
    RoundHalfEven(duration.GetOr(DefaultLeaseDuration), TicksPerSecond)
  }

  /** The key built for a lease has one value per partition path of its container, the
      root key value first when there is one, and ends with the object id the path
      `/id` names. */
  lemma PartitionKeyMatchesContainer(containerId: string, rootPartitionKey: Option<string>, objectId: string)
    ensures var key := BuildPartitionKey(rootPartitionKey, objectId);
            var props := GetContainerProperties(containerId, rootPartitionKey.Some?);
            |key.values| == |props.partitionKeyPaths|
            && props.partitionKeyPaths[|props.partitionKeyPaths| - 1] == IdPath
            && key.values[|key.values| - 1] == objectId
            && (rootPartitionKey.Some? <==> props.partitionKeyPaths[0] == RootPartitionKeyPath)
            && (rootPartitionKey.Some? ==> key.values[0] == rootPartitionKey.value)
            && props.defaultTimeToLive == -1
  {
  }

  /** Names that differ only in ASCII case share one document; a different root key
      value gives a different document. */
  lemma ObjectIdIgnoresCase(rootPartitionKey: Option<string>, name: string, freshId: string)
    ensures BuildPartitionKey(rootPartitionKey, LeaseObjectId(Some(Lower(name)), freshId))
            == BuildPartitionKey(rootPartitionKey, LeaseObjectId(Some(name), freshId))
  {
    LowerIdempotent(name);
  }

  /** The default duration gives a time to live of 59 seconds, and any duration gives
      the nearest whole number of seconds. */
  lemma LeaseTtlNearest(duration: Option<Span>)
    ensures LeaseTtl(None) == 59
    ensures 2 * Abs(duration.GetOr(DefaultLeaseDuration) - TicksPerSecond * LeaseTtl(duration)) <= TicksPerSecond
  {
    RoundHalfEvenNearest(duration.GetOr(DefaultLeaseDuration), TicksPerSecond, 0);
    RoundHalfEvenUnique(DefaultLeaseDuration, TicksPerSecond, 59);
  }

  /** A lease document. `ttl` is in seconds; `etag` and `writtenAt` are set by the store
      on every write. */
  datatype Doc = Doc(rpk: Option<string>, id: string, leaseId: string, ttl: int,
                     acquisitionToken: int, etag: nat, writtenAt: Timestamp)

  datatype Store = Store(docs: map<PartitionKey, Doc>, nextEtag: nat)

  /** The replies the provider distinguishes. `OtherError` carries any other failing
      status, 412 (the ETag did not match) among them. */
  datatype Response = Ok(doc: Doc) | NotFound | Conflict | OtherError(status: int)

  /** What the environment does just before a request reaches the store. */
  datatype Action =
    | Quiet
      /** Time-to-live expiry removes every document whose time is up. */
    | Expire
      /** Another party writes its own lease document under the requested key. */
    | ForeignUpsert(leaseId: string, ttl: int)
      /** Another party deletes the document under the requested key. */
    | ForeignDelete
      /** The request fails with the given status and changes nothing. */
    | Fault(status: int)

  /** Every ETag in the store was drawn before the counter's current value. */
  predicate Valid(s: Store)
  {
    forall k :: k in s.docs ==> s.docs[k].etag < s.nextEtag
  }

  /** A document whose own positive time to live has run out. */
  predicate Lapsed(d: Doc, now: Timestamp)
  {
    d.ttl > 0 && d.writtenAt + d.ttl * TicksPerSecond <= now
  }

  /** The response a failing status produces. */
  function StatusResponse(status: int): Response
  {
    if status == 404 then NotFound else if status == 409 then Conflict else OtherError(status)
  }

  function RootKeyOf(key: PartitionKey): Option<string>
  {
    if |key.values| == 2 then Some(key.values[0]) else None
  }

  function IdOf(key: PartitionKey): string
  {
    if |key.values| == 0 then "" else key.values[|key.values| - 1]
  }

  /** The store after the environment's action on the requested key. */
  function Apply(s: Store, key: PartitionKey, action: Action, now: Timestamp): (t: Store)
    ensures Valid(s) ==> Valid(t)
    ensures t.nextEtag >= s.nextEtag
  {
    match action
    case Quiet => s
    case Fault(_) => s
    case Expire => Store(map k | k in s.docs && !Lapsed(s.docs[k], now) :: s.docs[k], s.nextEtag)
    case ForeignUpsert(leaseId, ttl) =>
      Store(s.docs[key := Doc(RootKeyOf(key), IdOf(key), leaseId, ttl, 0, s.nextEtag, now)], s.nextEtag + 1)
    case ForeignDelete => Store(s.docs - {key}, s.nextEtag)
  }

  /** `ReadItemStreamAsync`. */
  function Read(s: Store, key: PartitionKey, action: Action, now: Timestamp): (r: (Response, Store))
    ensures Valid(s) ==> Valid(r.1)
    ensures r.0.Ok? ==> key in r.1.docs && r.1.docs[key] == r.0.doc
  {
    var t := Apply(s, key, action, now);
    if action.Fault? then (StatusResponse(action.status), t)
    else if key in t.docs then (Ok(t.docs[key]), t)
    else (NotFound, t)
  }

  /** `CreateItemStreamAsync`: refused with a conflict when a document exists. */
  function Create(s: Store, key: PartitionKey, doc: Doc, action: Action, now: Timestamp): (r: (Response, Store))
    ensures Valid(s) ==> Valid(r.1)
    ensures r.0.Ok? ==> key in r.1.docs && r.1.docs[key] == r.0.doc && r.0.doc.leaseId == doc.leaseId
  {
    var t := Apply(s, key, action, now);
    if action.Fault? then (StatusResponse(action.status), t)
    else if key in t.docs then (Conflict, t)
    else
      var written := doc.(etag := t.nextEtag, writtenAt := now);
      (Ok(written), Store(t.docs[key := written], t.nextEtag + 1))
  }

  /** `PatchItemStreamAsync` with one increment of `acquisitionToken`, guarded by an
      ETag: a mismatch is refused with 412. */
  function PatchIncrement(s: Store, key: PartitionKey, ifMatch: nat, action: Action, now: Timestamp): (r: (Response, Store))
    ensures Valid(s) ==> Valid(r.1)
  {
    var t := Apply(s, key, action, now);
    if action.Fault? then (StatusResponse(action.status), t)
    else if key !in t.docs then (NotFound, t)
    else if t.docs[key].etag != ifMatch then (OtherError(412), t)
    else
      var d := t.docs[key];
      var written := d.(acquisitionToken := d.acquisitionToken + 1, etag := t.nextEtag, writtenAt := now);
      (Ok(written), Store(t.docs[key := written], t.nextEtag + 1))
  }

  /** `DeleteItemStreamAsync`, guarded by an ETag. */
  function Delete(s: Store, key: PartitionKey, ifMatch: nat, action: Action, now: Timestamp): (r: (Response, Store))
    ensures Valid(s) ==> Valid(r.1)
  {
    var t := Apply(s, key, action, now);
    if action.Fault? then (StatusResponse(action.status), t)
    else if key !in t.docs then (NotFound, t)
    else if t.docs[key].etag != ifMatch then (OtherError(412), t)
    else (Ok(t.docs[key]), Store(t.docs - {key}, t.nextEtag))
  }

  /** A quiet create on a free key stores the document and a read finds it again. */
  lemma CreateThenRead(s: Store, key: PartitionKey, doc: Doc, now: Timestamp)
    requires key !in s.docs
    ensures var (c, t) := Create(s, key, doc, Quiet, now);
            c.Ok? && c.doc.leaseId == doc.leaseId && Read(t, key, Quiet, now).0 == c
  {
  }

  /** An ETag-guarded patch with the current ETag keeps the owner and bumps the
      acquisition token; the write gives the document a new ETag. */
  lemma PatchWithCurrentEtag(s: Store, key: PartitionKey, now: Timestamp)
    requires Valid(s) && key in s.docs
    ensures var (p, t) := PatchIncrement(s, key, s.docs[key].etag, Quiet, now);
            p.Ok? && p.doc.leaseId == s.docs[key].leaseId
            && p.doc.acquisitionToken == s.docs[key].acquisitionToken + 1
            && p.doc.etag != s.docs[key].etag
            && t.docs == s.docs[key := p.doc]
  {
  }

  /** After another party's write under a key, the ETag read before it no longer
      matches: a guarded patch or delete with it is refused with 412 and the store keeps
      the other party's document. */
  lemma StaleEtagRefused(s: Store, key: PartitionKey, leaseId: string, ttl: int, now: Timestamp)
    requires Valid(s) && key in s.docs
    ensures var stale := s.docs[key].etag;
            var t := Apply(s, key, ForeignUpsert(leaseId, ttl), now);
            PatchIncrement(s, key, stale, ForeignUpsert(leaseId, ttl), now) == (OtherError(412), t)
            && Delete(s, key, stale, ForeignUpsert(leaseId, ttl), now) == (OtherError(412), t)
            && t.docs[key].leaseId == leaseId
  {
  }

  /** A guarded delete with the current ETag removes exactly that document. */
  lemma DeleteWithCurrentEtag(s: Store, key: PartitionKey, now: Timestamp)
    requires key in s.docs
    ensures var (d, t) := Delete(s, key, s.docs[key].etag, Quiet, now);
            d == Ok(s.docs[key]) && key !in t.docs
            && forall k :: k in s.docs && k != key ==> k in t.docs && t.docs[k] == s.docs[k]
  {
  }

  /** Expiry removes exactly the lapsed documents. */
  lemma ExpireRemovesLapsed(s: Store, key: PartitionKey, now: Timestamp)
    ensures var t := Apply(s, key, Expire, now);
            forall k :: k in t.docs <==> k in s.docs && !Lapsed(s.docs[k], now)
  {
  }
}
