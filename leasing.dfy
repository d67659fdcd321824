/** Leases and the three lease providers.

    `ILeaseProvider` is a closed datatype over the three provider classes, and the
    abstract `Lease` with its subclasses `InMemoryLease`, `AzureLease` and
    `CosmosDbLease` is one class whose provider tells which subclass it is. Everything a
    call takes from outside the process (the clock, `Guid.NewGuid()`, the replies of the
    blob service and of the document container) comes in through an `Env`. */
module Leasing {
  import opened Wrappers
  import opened Time
  import opened Errors
  import opened LeasePolicies
  import opened TokenText
  import opened Casing
  import opened AzureRules
  import opened CosmosStore
  import opened CosmosLeases
  import Expiry

  /** A blob in a container of the storage account. */
  datatype BlobAddress = BlobAddress(container: string, blob: string)

  /** The replies of the blob service. Each one is the final result of the retry loop
      the provider runs around the call. */
  datatype BlobService = BlobService(
    createContainer: string -> Outcome<Error>,
    blobExists: BlobAddress -> Result<bool, Error>,
    upload: BlobAddress -> Outcome<Error>,
    acquire: (BlobAddress, Option<string>, Span) -> Result<string, Error>,
    renew: (BlobAddress, Option<string>) -> Outcome<Error>,
    release: (BlobAddress, Option<string>) -> Outcome<Error>)

  /** What one call sees of the world: the time (`UtcNow` and `Now` are one instant),
      the fresh GUIDs it would draw in order, the blob service, and the actions of the
      environment before each request to the document container, in order. */
  datatype Env = Env(now: Timestamp, freshId: nat -> string, blob: BlobService, cosmos: nat -> Action)
  {
    /** The environment of a nested call made after `ids` GUIDs and `requests`
        document requests of the caller. */
    function Shift(ids: nat, requests: nat): Env
    {
      Env(now, (k: nat) => freshId(k + ids), blob, (k: nat) => cosmos(k + requests))
    }
  }

  /** `ILeaseProvider`. */
  datatype ProviderRef =
    | InMemory(inMemory: InMemoryLeaseProvider)
    | Azure(azure: AzureLeaseProvider)
    | CosmosDb(cosmosDb: CosmosDbLeaseProvider)
  {
    /** The objects the provider's operations change. */
    function Footprint(): set<object>
    {
      match this
      case InMemory(p) => {p.table}
      case Azure(p) => {p}
      case CosmosDb(p) => {p.container}
    }

    predicate Valid()
      reads Footprint()
    {
      Azure? ==> azure.Valid()
    }

    /** `AcquireAsync`: what every provider guarantees of a lease it hands out. */
    method Acquire(policy: LeasePolicy?, proposed: Option<string>, env: Env) returns (r: Result<Lease, Error>)
      requires Valid()
      modifies Footprint()
      ensures Valid()
      ensures policy == null ==> r == Failure(ArgumentNull)
      ensures r.Success? ==> fresh(r.value) && r.value.provider == this && r.value.policy == policy
                             && r.value.id.Some? && r.value.lastAcquired == Some(env.now) && !r.value.released
    {
      match this
      case InMemory(p) => r := p.Acquire(policy, proposed, env);
      case Azure(p) => r := p.Acquire(policy, proposed, env);
      case CosmosDb(p) => r := p.Acquire(policy, proposed, env);
    }

    /** `ExtendAsync`: a successful extension of one of the provider's own leases
        restamps it with the current time; a failed one leaves the lease as it was. */
    method Extend(lease: Lease?, env: Env) returns (r: Outcome<Error>)
      requires Valid()
      modifies Footprint(), lease
      ensures Valid()
      ensures lease == null ==> r.Fail?
      ensures lease != null ==> lease.id == old(lease.id) && lease.released == old(lease.released)
      ensures lease != null && r.Pass? && lease.provider == this ==> lease.lastAcquired == Some(env.now)
      ensures lease != null && r.Fail? ==> unchanged(lease)
    {
      match this
      case InMemory(p) => r := p.Extend(lease, env);
      case Azure(p) => r := p.Extend(lease, env);
      case CosmosDb(p) => r := p.Extend(lease, env);
    }

    /** `ReleaseAsync`: the lease keeps its id and its `Released` flag; the Azure and
        Cosmos DB providers forget `LastAcquired` on success, the in-memory provider
        does not touch the lease. */
    method Release(lease: Lease?, env: Env) returns (r: Outcome<Error>)
      requires Valid()
      modifies Footprint(), lease
      ensures Valid()
      ensures lease == null ==> r == Fail(ArgumentNull)
      ensures lease != null ==> lease.id == old(lease.id) && lease.released == old(lease.released)
      ensures lease != null && r.Pass? && !InMemory? ==> lease.lastAcquired == None
      ensures lease != null && (r.Fail? || InMemory?) ==> unchanged(lease)
    {
      match this
      case InMemory(p) => r := p.Release(lease, env);
      case Azure(p) => r := p.Release(lease, env);
      case CosmosDb(p) => r := p.Release(lease, env);
    }
  }

  /** `Lease` and its three subclasses. */
  class Lease {
    /** `LeaseProvider`; its case is the lease's subclass. */
    const provider: ProviderRef
    /** `LeasePolicy`. */
    const policy: LeasePolicy
    /** `Id`; only `AzureLease.ClearId` makes it null. */
    var id: Option<string>
    /** The subclass's `lastAcquired` field behind `LastAcquired`. */
    var lastAcquired: Option<Timestamp>
    /** `Released`. */
    var released: bool

    /** `new InMemoryLease(provider, policy, id)`: stamped with the current time. */
    constructor NewInMemory(p: InMemoryLeaseProvider, policy: LeasePolicy, id: string, now: Timestamp)
      ensures provider == InMemory(p) && this.policy == policy && this.id == Some(id)
      ensures lastAcquired == Some(now) && !released
    {
      provider := InMemory(p);
      this.policy := policy;
      this.id := Some(id);
      lastAcquired := Some(now);
      released := false;
    }

    /** `new InMemoryLease(provider, policy, id, lastAcquired)`. */
    constructor RestoredInMemory(p: InMemoryLeaseProvider, policy: LeasePolicy, id: string, lastAcquired: Option<Timestamp>)
      ensures provider == InMemory(p) && this.policy == policy && this.id == Some(id)
      ensures this.lastAcquired == lastAcquired && !released
    {
      provider := InMemory(p);
      this.policy := policy;
      this.id := Some(id);
      this.lastAcquired := lastAcquired;
      released := false;
    }

    /** `new AzureLease(provider, policy, id)`: not yet stamped. */
    constructor NewAzure(p: AzureLeaseProvider, policy: LeasePolicy, id: string)
      ensures provider == Azure(p) && this.policy == policy && this.id == Some(id)
      ensures lastAcquired == None && !released
    {
      provider := Azure(p);
      this.policy := policy;
      this.id := Some(id);
      lastAcquired := None;
      released := false;
    }

    /** `new AzureLease(provider, policy, id, lastAcquired)`. */
    constructor RestoredAzure(p: AzureLeaseProvider, policy: LeasePolicy, id: string, lastAcquired: Option<Timestamp>)
      ensures provider == Azure(p) && this.policy == policy && this.id == Some(id)
      ensures this.lastAcquired == lastAcquired && !released
    {
      provider := Azure(p);
      this.policy := policy;
      this.id := Some(id);
      this.lastAcquired := lastAcquired;
      released := false;
    }

    /** `new CosmosDbLease(provider, policy, id)`, taken to behave as its Azure
        counterpart: not yet stamped. */
    constructor NewCosmosDb(p: CosmosDbLeaseProvider, policy: LeasePolicy, id: string)
      ensures provider == CosmosDb(p) && this.policy == policy && this.id == Some(id)
      ensures lastAcquired == None && !released
    {
      provider := CosmosDb(p);
      this.policy := policy;
      this.id := Some(id);
      lastAcquired := None;
      released := false;
    }

    /** `Expires`. */
    function Expires(): Option<int>
      reads this, policy
    {
      Expiry.ExpiresAt(lastAcquired, policy.duration)
    }

    /** `HasLease` at time `now`. */
    predicate HasLease(now: Timestamp)
      reads this, policy
    {
      Expiry.HasLease(lastAcquired, policy.duration, released, now)
    }

    /** `GetToken` of an in-memory or Azure lease, before base64url. */
    function GetToken(): string
      requires !provider.CosmosDb?
      reads this, policy
    {
      EncodePayload(if provider.InMemory? then InMemoryContentType else AzureContentType,
                    id, lastAcquired, policy.actorName, policy.duration, policy.name)
    }

    /** `InMemoryLease.SetLastAcquired()`: stamp with the current time. */
    method Stamp(now: Timestamp)
      requires provider.InMemory?
      modifies this
      ensures lastAcquired == Some(now)
      ensures id == old(id) && released == old(released)
    {
      lastAcquired := Some(now);
    }

    /** `AzureLease.SetLastAcquired(value)` (and the Cosmos DB lease's): any value, null
        included. */
    method SetLastAcquired(value: Option<Timestamp>)
      requires !provider.InMemory?
      modifies this
      ensures lastAcquired == value
      ensures id == old(id) && released == old(released)
    {
      lastAcquired := value;
    }

    /** `AzureLease.ClearId`. */
    method ClearId()
      requires provider.Azure?
      modifies this
      ensures id == None
      ensures lastAcquired == old(lastAcquired) && released == old(released)
    {
      id := None;
    }

    /** `Lease.ReleaseAsync`: a lease that is not held is left alone; a held one is
        released through its provider and marked released exactly when that succeeds.
        After a successful call the lease is not held. */
    method ReleaseAsync(env: Env) returns (r: Outcome<Error>)
      requires provider.Valid()
      modifies this, provider.Footprint()
      ensures provider.Valid()
      ensures id == old(id)
      ensures !old(HasLease(env.now)) ==> r == Pass && unchanged(this) && unchanged(provider.Footprint())
      ensures old(HasLease(env.now)) ==> (released <==> r.Pass?)
      ensures r.Pass? ==> !HasLease(env.now)
      ensures r.Fail? ==> unchanged(this)
    {
      if HasLease(env.now) {
        r := provider.Release(this, env);
        if r.Pass? {
          released := true;
        }
      } else {
        r := Pass;
      }
    }

    /** `Lease.ExtendAsync`: hands the lease to its provider, whatever its state. */
    method ExtendAsync(env: Env) returns (r: Outcome<Error>)
      requires provider.Valid()
      modifies this, provider.Footprint()
      ensures provider.Valid()
      ensures id == old(id) && released == old(released)
      ensures r.Pass? ==> lastAcquired == Some(env.now)
      ensures r.Fail? ==> lastAcquired == old(lastAcquired)
    {
      r := provider.Extend(this, env);
    }
  }

  /** The fields of a lease restored from a token, and the provider it belongs to. */
  predicate Restores(lease: Lease, f: TokenFields, p: ProviderRef)
    reads lease, lease.policy
  {
    lease.provider == p && lease.id == Some(f.id) && lease.lastAcquired == f.lastAcquired && !lease.released
    && lease.policy.name == Some(f.name) && lease.policy.actorName == Some(f.actorName)
    && lease.policy.duration == f.duration
  }

  /** A lease whose token reads back: the id and the name are non-empty single lines,
      the actor name has no line break and the duration is whole milliseconds. */
  predicate Tokenizable(lease: Lease)
    reads lease, lease.policy
  {
    lease.id.Some? && IsLine(lease.id.value) && lease.policy.name.Some? && IsLine(lease.policy.name.value)
    && (lease.policy.actorName.Some? ==> '\n' !in lease.policy.actorName.value)
    && (lease.policy.duration.Some? ==> IsWholeMilliseconds(lease.policy.duration.value))
  }

  /** `restored` is what a token of `lease` reads back as: another lease of the same
      provider with the same id, name and duration, not released, acquired at the same
      millisecond, and with the actor name or the null marker. */
  predicate RestoredFrom(restored: Lease, lease: Lease)
    reads restored, restored.policy, lease, lease.policy
  {
    restored.provider == lease.provider && restored.id == lease.id && !restored.released
    && restored.policy.name == lease.policy.name && restored.policy.duration == lease.policy.duration
    && restored.lastAcquired == TruncatedToMillisecond(lease.lastAcquired)
    && restored.policy.actorName == Some(DecodedActorName(lease.policy.actorName))
  }

  /** The process-wide dictionary of `InMemoryLeaseProvider` (a static field, so all
      instances share it), from lease id to the lease object last stored under it. */
  class InMemoryTable {
    var leases: map<string, Lease>

    constructor ()
      ensures leases == map[]
    {
      leases := map[];
    }
  }

  /** `InMemoryLeaseProvider`. */
  class InMemoryLeaseProvider {
    const table: InMemoryTable

    constructor (table: InMemoryTable)
      ensures this.table == table
    {
      this.table := table;
    }

    /** The test of `AcquireAsync` that refuses a new lease under an id: the stored
        lease has an expiry time and it is still ahead. */
    predicate Blocks(lease: Lease, now: Timestamp)
      reads lease, lease.policy
    {
      var e := lease.Expires();
      e.Some? && e.value > now
    }

    /** `AcquireAsync`: the proposed id (or a fresh one) is refused while the lease
        stored under it blocks; otherwise a new lease, stamped now, replaces it. */
    method Acquire(policy: LeasePolicy?, proposed: Option<string>, env: Env) returns (r: Result<Lease, Error>)
      modifies table
      ensures policy == null ==> r == Failure(ArgumentNull) && table.leases == old(table.leases)
      ensures policy != null ==>
                var id := proposed.GetOr(env.freshId(0));
                if id in old(table.leases) && old(Blocks(table.leases[id], env.now)) then
                  r == Failure(LeaseAcquisitionUnsuccessful(policy, None)) && table.leases == old(table.leases)
                else
                  r.Success? && fresh(r.value) && r.value.provider == InMemory(this) && r.value.policy == policy
                  && r.value.id == Some(id) && r.value.lastAcquired == Some(env.now) && !r.value.released
                  && table.leases == old(table.leases)[id := r.value]
    {
      if policy == null {
        return Failure(ArgumentNull);
      }
      var id := proposed.GetOr(env.freshId(0));
      if id in table.leases && Blocks(table.leases[id], env.now) {
        return Failure(LeaseAcquisitionUnsuccessful(policy, None));
      }
      var lease := new Lease.NewInMemory(this, policy, id, env.now);
      table.leases := table.leases[id := lease];
      r := Success(lease);
    }

    /** `ExtendAsync`: restamps an in-memory lease (the very object the dictionary
        holds) and ignores any other. */
    method Extend(lease: Lease?, env: Env) returns (r: Outcome<Error>)
      modifies lease
      ensures lease == null ==> r == Fail(ArgumentNull)
      ensures lease != null ==> r == Pass && lease.id == old(lease.id) && lease.released == old(lease.released)
      ensures lease != null && lease.provider.InMemory? ==> lease.lastAcquired == Some(env.now)
      ensures lease != null && !lease.provider.InMemory? ==> unchanged(lease)
    {
      if lease == null {
        return Fail(ArgumentNull);
      }
      if lease.provider.InMemory? {
        lease.Stamp(env.now);
      }
      r := Pass;
    }

    /** `ReleaseAsync`: removes the entry under the lease's id, whoever stored it; a
        null id is an `ArgumentNullException` of the dictionary. */
    method Release(lease: Lease?, env: Env) returns (r: Outcome<Error>)
      modifies table
      ensures lease == null || lease.id.None? ==> r == Fail(ArgumentNull) && table.leases == old(table.leases)
      ensures lease != null && lease.id.Some? ==> r == Pass && table.leases == old(table.leases) - {lease.id.value}
    {
      if lease == null || lease.id.None? {
        return Fail(ArgumentNull);
      }
      table.leases := table.leases - {lease.id.value};
      r := Pass;
    }

    /** `ToLeaseToken`: only an in-memory lease has a token. */
    function ToLeaseToken(lease: Lease?): (r: Result<string, Error>)
      reads if lease == null then {} else {lease, lease.policy}
      ensures lease == null ==> r == Failure(ArgumentNull)
      ensures lease != null && !lease.provider.InMemory? ==> r == Failure(Tokenization)
      ensures r.Success? <==> lease != null && lease.provider.InMemory?
    {
      if lease == null then Failure(ArgumentNull)
      else if lease.provider.InMemory? then Success(lease.GetToken())
      else Failure(Tokenization)
    }

    /** `FromLeaseToken`: a lease of this provider with the decoded fields and a new
        policy (whose generated name is immediately overwritten). */
    method FromLeaseToken(token: Option<string>, env: Env) returns (r: Result<Lease, Error>)
      ensures token.None? ==> r == Failure(ArgumentNull)
      ensures token.Some? ==>
                var d := DecodePayload(InMemoryContentType, NameFirst, token.value);
                (d.Failure? ==> r == Failure(d.error))
                && (d.Success? ==> r.Success? && fresh(r.value) && fresh(r.value.policy) && Restores(r.value, d.value, InMemory(this)))
    {
      if token.None? {
        return Failure(ArgumentNull);
      }
      var d := DecodePayload(InMemoryContentType, NameFirst, token.value);
      if d.Failure? {
        return Failure(d.error);
      }
      var f := d.value;
      var policy := NewPolicy(Some(f.actorName), f.duration, Some(f.name), env.freshId(0));
      var lease := new Lease.RestoredInMemory(this, policy, f.id, f.lastAcquired);
      r := Success(lease);
    }

    /** A token of this provider's lease, read back by this provider, gives a lease with
        the same id, name and duration, the acquisition time truncated to the
        millisecond and the actor name up to the null marker. */
    method TokenRoundTrip(lease: Lease, env: Env) returns (token: Result<string, Error>, restored: Result<Lease, Error>)
      requires lease.provider == InMemory(this) && Tokenizable(lease)
      ensures token.Success? && restored.Success? && RestoredFrom(restored.value, lease)
    {
      token := ToLeaseToken(lease);
      ContentTypesAreLines();
      DecodeEncode(InMemoryContentType, NameFirst, lease.id.value, lease.lastAcquired, lease.policy.actorName,
                   lease.policy.duration, lease.policy.name.value);
      restored := FromLeaseToken(Some(token.value), env);
    }

    /** The token of an Azure lease is refused: its content type is not this provider's. */
    method RefusesAzureToken(lease: Lease, env: Env) returns (r: Result<Lease, Error>)
      requires lease.provider.Azure?
      ensures r == Failure(Tokenization)
    {
      CrossProviderTokensRefused(NameFirst, lease.id, lease.lastAcquired, lease.policy.actorName,
                                 lease.policy.duration, lease.policy.name);
      r := FromLeaseToken(Some(lease.GetToken()), env);
    }
  }

  /** Exclusion is per id: on any shared dictionary in which neither id is held (absent,
      or its stored lease no longer blocks), two acquisitions under different ids both
      succeed, whatever the policy. */
  method InMemoryDistinctIds(p: InMemoryLeaseProvider, policy: LeasePolicy, id1: string, id2: string, env: Env)
    returns (first: Result<Lease, Error>, second: Result<Lease, Error>)
    requires id1 != id2
    requires id1 in p.table.leases ==> !p.Blocks(p.table.leases[id1], env.now)
    requires id2 in p.table.leases ==> !p.Blocks(p.table.leases[id2], env.now)
    modifies p.table
    ensures first.Success? && second.Success?
    ensures first.value.id == Some(id1) && second.value.id == Some(id2)
    ensures id1 in p.table.leases && p.table.leases[id1] == first.value
    ensures id2 in p.table.leases && p.table.leases[id2] == second.value
  {
    first := p.Acquire(policy, Some(id1), env);
    second := p.Acquire(policy, Some(id2), env);
  }

  /** On any shared dictionary in which the id is not held, a second acquisition under
      the id before the first lease runs out (or ever, without a duration) is refused,
      and after the first lease is released the id can be acquired again. */
  method InMemorySameId(p: InMemoryLeaseProvider, policy: LeasePolicy, id: string, env: Env, later: Timestamp)
    returns (first: Result<Lease, Error>, second: Result<Lease, Error>, third: Result<Lease, Error>)
    requires id in p.table.leases ==> !p.Blocks(p.table.leases[id], env.now)
    requires env.now <= later
    requires policy.duration.None? ==> later < MaxTimestamp
    requires policy.duration.Some? ==> later < env.now + policy.duration.value
    modifies p.table
    ensures first.Success? && second == Failure(LeaseAcquisitionUnsuccessful(policy, None))
    ensures third.Success? && third.value.id == Some(id) && third.value.lastAcquired == Some(later)
    ensures id in p.table.leases && p.table.leases[id] == third.value
  {
    first := p.Acquire(policy, Some(id), env);
    second := p.Acquire(policy, Some(id), env.(now := later));
    var released := p.Release(first.value, env.(now := later));
    third := p.Acquire(policy, Some(id), env.(now := later));
  }

  /** `InitialiseAsync`'s verdict: nothing to do once initialised; otherwise the
      container creation, whose failure is wrapped in an `InitializationFailureException`. */
  function InitOutcome(initialised: bool, containerName: string, blob: BlobService): (r: Outcome<Error>)
    ensures r.Fail? ==> !initialised && r.error.InitializationFailure?
  {
    if initialised then Pass
    else match blob.createContainer(containerName)
      case Pass => Pass
      case Fail(e) => Fail(InitializationFailure(e))
  }

  /** The two blob steps of `AcquireAsync`: make sure the blob exists (uploading an
      empty one if not), then take a blob lease on it; a failure of either is
      reclassified by `BlobStepFailure`. */
  function AcquireBlob(policy: LeasePolicy, address: BlobAddress, proposed: Option<string>, duration: Span,
                       blob: BlobService): Result<string, Error>
  {
    var prepared :=
      match blob.blobExists(address)
      case Failure(e) => Fail(e)
      case Success(present) => if present then Pass else blob.upload(address);
    if prepared.Fail? then Failure(BlobStepFailure(policy, prepared.error))
    else match blob.acquire(address, proposed, duration)
      case Failure(e) => Failure(BlobStepFailure(policy, e))
      case Success(id) => Success(id)
  }

  /** `AzureLeaseProvider`. */
  class AzureLeaseProvider {
    var initialised: bool
    /** The container client's name, once `InitialiseAsync` has created it. */
    var container: Option<string>
    /** `ContainerName`. */
    var containerName: Option<string>
    /** `INameProvider.ProvideName(name, maxLength, NameCase.LowerInvariant)`. */
    const provideName: (string, int) -> string

    predicate Valid()
      reads this
    {
      initialised ==> container.Some?
    }

    constructor (provideName: (string, int) -> string)
      ensures Valid() && !initialised && container == None && containerName == None
    {
      initialised := false;
      container := None;
      containerName := None;
      this.provideName := provideName;
    }

    /** The `ContainerName` setter. */
    method SetContainerName(value: Option<string>)
      modifies this
      ensures containerName == value
      ensures initialised == old(initialised) && container == old(container)
    {
      containerName := value;
    }

    /** `GetContainerName`: the configured name or "genericleases", through the name
        provider with a limit of 63 characters. */
    function ConfiguredContainer(): string
      reads this
    {
      provideName(containerName.GetOr(DefaultContainerName), MaxContainerNameLength)
    }

    /** The provider's state after one run of `InitialiseAsync` from the previous state:
        the container is chosen again, from the configured name, on every call until one
        creates it; from then on the provider is initialised and keeps that container. */
    twostate predicate AfterInitialise(env: Env)
      reads this
    {
      var cn := old(ConfiguredContainer());
      containerName == old(containerName)
      && container == (if old(initialised) then old(container) else Some(cn))
      && initialised == (old(initialised) || env.blob.createContainer(cn).Pass?)
    }

    /** `InitialiseAsync`. */
    method Initialise(env: Env) returns (r: Outcome<Error>)
      requires Valid()
      modifies this
      ensures Valid() && AfterInitialise(env)
      ensures r == InitOutcome(old(initialised), old(ConfiguredContainer()), env.blob)
    {
      if !initialised {
        var cn := ConfiguredContainer();
        container := Some(cn);
        var created := env.blob.createContainer(cn);
        if created.Fail? {
          return Fail(InitializationFailure(created.error));
        }
        initialised := true;
      }
      r := Pass;
    }

    /** `AcquireAsync`: initialise, then run the blob steps on the lower-cased lease name
        (or a fresh name) in the container; a granted blob lease becomes an Azure lease
        stamped now. */
    method Acquire(policy: LeasePolicy?, proposed: Option<string>, env: Env) returns (r: Result<Lease, Error>)
      requires Valid()
      modifies this
      ensures Valid()
      ensures policy == null ==> r == Failure(ArgumentNull) && unchanged(this)
      ensures policy != null ==> AfterInitialise(env)
      ensures policy != null ==>
                var init := InitOutcome(old(initialised), old(ConfiguredContainer()), env.blob);
                (init.Fail? ==> r == Failure(init.error))
                && (init.Pass? ==>
                      var address := BlobAddress(container.value, Lower(policy.name.GetOr(env.freshId(0))));
                      var o := AcquireBlob(policy, address, proposed, policy.duration.GetOr(DefaultLeaseDuration), env.blob);
                      (o.Failure? ==> r == Failure(o.error))
                      && (o.Success? ==> r.Success? && fresh(r.value) && r.value.provider == Azure(this)
                                         && r.value.policy == policy && r.value.id == Some(o.value)
                                         && r.value.lastAcquired == Some(env.now) && !r.value.released))
    {
      if policy == null {
        return Failure(ArgumentNull);
      }
      var init := Initialise(env);
      if init.Fail? {
        return Failure(init.error);
      }
      var address := BlobAddress(container.value, Lower(policy.name.GetOr(env.freshId(0))));
      var o := AcquireBlob(policy, address, proposed, policy.duration.GetOr(DefaultLeaseDuration), env.blob);
      if o.Failure? {
        return Failure(o.error);
      }
      var lease := new Lease.NewAzure(this, policy, o.value);
      lease.SetLastAcquired(Some(env.now));
      r := Success(lease);
    }

    /** `ExtendAsync`: initialise, renew the blob lease under the lease's id, and
        restamp the lease if it is an Azure lease. A policy without a name cannot name
        the blob (`NullReferenceException`). */
    method Extend(lease: Lease?, env: Env) returns (r: Outcome<Error>)
      requires Valid()
      modifies this, lease
      ensures Valid()
      ensures lease == null ==> r == Fail(ArgumentNull) && unchanged(this)
      ensures lease != null ==> AfterInitialise(env) && lease.id == old(lease.id) && lease.released == old(lease.released)
      ensures lease != null ==>
                var init := InitOutcome(old(initialised), old(ConfiguredContainer()), env.blob);
                (init.Fail? ==> r == init && unchanged(lease))
                && (init.Pass? && lease.policy.name.None? ==> r == Fail(NullReference) && unchanged(lease))
                && (init.Pass? && lease.policy.name.Some? ==>
                      var o := env.blob.renew(BlobAddress(container.value, Lower(lease.policy.name.value)), lease.id);
                      (o.Fail? ==> r == o && unchanged(lease))
                      && (o.Pass? ==> r == Pass && lease.lastAcquired
                                                   == (if lease.provider.Azure? then Some(env.now) else old(lease.lastAcquired))))
    {
      if lease == null {
        return Fail(ArgumentNull);
      }
      var init := Initialise(env);
      if init.Fail? {
        return init;
      }
      if lease.policy.name.None? {
        return Fail(NullReference);
      }
      var o := env.blob.renew(BlobAddress(container.value, Lower(lease.policy.name.value)), lease.id);
      if o.Fail? {
        return o;
      }
      if lease.provider.Azure? {
        lease.SetLastAcquired(Some(env.now));
      }
      r := Pass;
    }

    /** `ReleaseAsync`: only an Azure lease; initialise, release the blob lease under
        the lease's id, and forget `LastAcquired`. */
    method Release(lease: Lease?, env: Env) returns (r: Outcome<Error>)
      requires Valid()
      modifies this, lease
      ensures Valid()
      ensures lease == null ==> r == Fail(ArgumentNull) && unchanged(this)
      ensures lease != null && !lease.provider.Azure? ==> r == Fail(Argument) && unchanged(this) && unchanged(lease)
      ensures lease != null ==> lease.id == old(lease.id) && lease.released == old(lease.released)
      ensures lease != null && lease.provider.Azure? ==>
                AfterInitialise(env)
                && var init := InitOutcome(old(initialised), old(ConfiguredContainer()), env.blob);
                (init.Fail? ==> r == init && unchanged(lease))
                && (init.Pass? && lease.policy.name.None? ==> r == Fail(NullReference) && unchanged(lease))
                && (init.Pass? && lease.policy.name.Some? ==>
                      var o := env.blob.release(BlobAddress(container.value, Lower(lease.policy.name.value)), lease.id);
                      (o.Fail? ==> r == o && unchanged(lease))
                      && (o.Pass? ==> r == Pass && lease.lastAcquired == None))
    {
      if lease == null {
        return Fail(ArgumentNull);
      }
      if !lease.provider.Azure? {
        return Fail(Argument);
      }
      var init := Initialise(env);
      if init.Fail? {
        return init;
      }
      if lease.policy.name.None? {
        return Fail(NullReference);
      }
      var o := env.blob.release(BlobAddress(container.value, Lower(lease.policy.name.value)), lease.id);
      if o.Fail? {
        return o;
      }
      lease.SetLastAcquired(None);
      r := Pass;
    }

    /** `ToLeaseToken`: only an Azure lease has a token. */
    function ToLeaseToken(lease: Lease?): (r: Result<string, Error>)
      reads if lease == null then {} else {lease, lease.policy}
      ensures r.Failure? ==> r.error == Tokenization
      ensures r.Success? <==> lease != null && lease.provider.Azure?
    {
      if lease != null && lease.provider.Azure? then Success(lease.GetToken()) else Failure(Tokenization)
    }

    /** `FromLeaseToken`. */
    method FromLeaseToken(token: Option<string>, env: Env) returns (r: Result<Lease, Error>)
      ensures token.None? ==> r == Failure(ArgumentNull)
      ensures token.Some? ==>
                var d := DecodePayload(AzureContentType, NameLast, token.value);
                (d.Failure? ==> r == Failure(d.error))
                && (d.Success? ==> r.Success? && fresh(r.value) && fresh(r.value.policy) && Restores(r.value, d.value, Azure(this)))
    {
      if token.None? {
        return Failure(ArgumentNull);
      }
      var d := DecodePayload(AzureContentType, NameLast, token.value);
      if d.Failure? {
        return Failure(d.error);
      }
      var f := d.value;
      var policy := NewPolicy(Some(f.actorName), f.duration, Some(f.name), env.freshId(0));
      var lease := new Lease.RestoredAzure(this, policy, f.id, f.lastAcquired);
      r := Success(lease);
    }

    /** The Azure counterpart of `InMemoryLeaseProvider.TokenRoundTrip`. */
    method TokenRoundTrip(lease: Lease, env: Env) returns (token: Result<string, Error>, restored: Result<Lease, Error>)
      requires lease.provider == Azure(this) && Tokenizable(lease)
      ensures token.Success? && restored.Success? && RestoredFrom(restored.value, lease)
    {
      token := ToLeaseToken(lease);
      ContentTypesAreLines();
      DecodeEncode(AzureContentType, NameLast, lease.id.value, lease.lastAcquired, lease.policy.actorName,
                   lease.policy.duration, lease.policy.name.value);
      restored := FromLeaseToken(Some(token.value), env);
    }

    /** The token of an in-memory lease is refused. */
    method RefusesInMemoryToken(lease: Lease, env: Env) returns (r: Result<Lease, Error>)
      requires lease.provider.InMemory?
      ensures r == Failure(Tokenization)
    {
      CrossProviderTokensRefused(NameLast, lease.id, lease.lastAcquired, lease.policy.actorName,
                                 lease.policy.duration, lease.policy.name);
      r := FromLeaseToken(Some(lease.GetToken()), env);
    }
  }

  /** The Cosmos DB `Container`, holding the store; each request first lets the
      environment act and then answers as `CosmosStore` says. */
  class CosmosContainer {
    var store: Store

    constructor (store: Store)
      ensures this.store == store
    {
      this.store := store;
    }

    /** `ReadItemStreamAsync`. */
    method ReadItem(key: PartitionKey, action: Action, now: Timestamp) returns (response: Response)
      modifies this
      ensures (response, store) == Read(old(store), key, action, now)
    {
      var (resp, s) := Read(store, key, action, now);
      response, store := resp, s;
    }

    /** `CreateItemStreamAsync`. */
    method CreateItem(key: PartitionKey, doc: Doc, action: Action, now: Timestamp) returns (response: Response)
      modifies this
      ensures (response, store) == Create(old(store), key, doc, action, now)
    {
      var (resp, s) := Create(store, key, doc, action, now);
      response, store := resp, s;
    }

    /** `PatchItemStreamAsync` with one increment of `/acquisitionToken` and an
        `IfMatchEtag`. */
    method PatchItem(key: PartitionKey, ifMatch: nat, action: Action, now: Timestamp) returns (response: Response)
      modifies this
      ensures (response, store) == PatchIncrement(old(store), key, ifMatch, action, now)
    {
      var (resp, s) := PatchIncrement(store, key, ifMatch, action, now);
      response, store := resp, s;
    }

    /** `DeleteItemStreamAsync` with an `IfMatchEtag`. */
    method DeleteItem(key: PartitionKey, ifMatch: nat, action: Action, now: Timestamp) returns (response: Response)
      modifies this
      ensures (response, store) == Delete(old(store), key, ifMatch, action, now)
    {
      var (resp, s) := Delete(store, key, ifMatch, action, now);
      response, store := resp, s;
    }
  }

  /** `CosmosDbLeaseProvider`. */
  class CosmosDbLeaseProvider {
    const container: CosmosContainer
    /** `CosmosDbLeaseProviderOptions.RootPartitionKeyValue`. */
    const rootPartitionKey: Option<string>

    constructor (container: CosmosContainer, rootPartitionKey: Option<string>)
      ensures this.container == container && this.rootPartitionKey == rootPartitionKey
    {
      this.container := container;
      this.rootPartitionKey := rootPartitionKey;
    }

    /** `AcquireAsync`: the object id comes from the name (or GUID 0), the lease id is
        the proposed one (or GUID 1); the store requests are those of `AcquireSteps`. */
    method Acquire(policy: LeasePolicy?, proposed: Option<string>, env: Env) returns (r: Result<Lease, Error>)
      modifies container
      ensures policy == null ==> r == Failure(ArgumentNull) && container.store == old(container.store)
      ensures policy != null ==>
                var leaseId := proposed.GetOr(env.freshId(1));
                var (o, s) := AcquireSteps(old(container.store), rootPartitionKey, policy, policy.duration,
                                           LeaseObjectId(policy.name, env.freshId(0)), leaseId, env.cosmos, env.now);
                container.store == s
                && (o.Fail? ==> r == Failure(o.error))
                && (o.Pass? ==> r.Success? && fresh(r.value) && r.value.provider == CosmosDb(this)
                                && r.value.policy == policy && r.value.id == Some(leaseId)
                                && r.value.lastAcquired == Some(env.now) && !r.value.released)
    {
      if policy == null {
        return Failure(ArgumentNull);
      }
      var objectId := LeaseObjectId(policy.name, env.freshId(0));
      var leaseId := proposed.GetOr(env.freshId(1));
      var key := BuildPartitionKey(rootPartitionKey, objectId);
      var response := container.ReadItem(key, env.cosmos(0), env.now);
      if response.NotFound? {
        var doc := NewLeaseDoc(rootPartitionKey, objectId, leaseId, LeaseTtl(policy.duration));
        response := container.CreateItem(key, doc, env.cosmos(1), env.now);
        if response.Conflict? {
          return Failure(LeaseAcquisitionUnsuccessful(policy, None));
        } else if !response.Ok? {
          return Failure(InvalidOperation);
        }
      }
      var owns := OwnsLease(response, Some(leaseId));
      if owns.Failure? {
        return Failure(owns.error);
      }
      if !owns.value {
        return Failure(LeaseAcquisitionUnsuccessful(policy, None));
      }
      var lease := new Lease.NewCosmosDb(this, policy, leaseId);
      lease.SetLastAcquired(Some(env.now));
      r := Success(lease);
    }

    /** `ExtendAsync`: only a Cosmos DB lease (a null lease included is an
        `ArgumentException`); the requests of `ExtendSteps`, and then, if the document
        had gone, a fresh acquisition under the lease's policy and id whose time stamp the
        lease takes over. */
    method Extend(lease: Lease?, env: Env) returns (r: Outcome<Error>)
      modifies container, lease
      ensures lease == null ==> r == Fail(Argument) && unchanged(container)
      ensures lease != null && !lease.provider.CosmosDb? ==> r == Fail(Argument) && unchanged(container) && unchanged(lease)
      ensures lease != null ==> lease.id == old(lease.id) && lease.released == old(lease.released)
      ensures lease != null && lease.provider.CosmosDb? ==>
                var key := BuildPartitionKey(rootPartitionKey, LeaseObjectId(lease.policy.name, env.freshId(0)));
                var (step, s1) := ExtendSteps(old(container.store), key, lease.id, lease.policy, env.cosmos, env.now);
                (step.Extended? ==> r == Pass && container.store == s1 && lease.lastAcquired == Some(env.now))
                && (step.Refused? ==> r == Fail(step.error) && container.store == s1 && unchanged(lease))
                && (step.Reacquire? ==>
                      var e := env.Shift(1, step.requests);
                      var (o, s2) := AcquireSteps(s1, rootPartitionKey, lease.policy, lease.policy.duration,
                                                  LeaseObjectId(lease.policy.name, e.freshId(0)),
                                                  lease.id.GetOr(e.freshId(1)), e.cosmos, env.now);
                      container.store == s2
                      && (o.Pass? ==> r == Pass && lease.lastAcquired == Some(env.now))
                      && (o.Fail? ==> r == o && unchanged(lease)))
    {
      if lease == null || !lease.provider.CosmosDb? {
        return Fail(Argument);
      }
      var key := BuildPartitionKey(rootPartitionKey, LeaseObjectId(lease.policy.name, env.freshId(0)));
      var response := container.ReadItem(key, env.cosmos(0), env.now);
      var requests := 1;
      if response.Ok? {
        if OwnsLease(response, lease.id) != Success(true) {
          return Fail(LeaseAcquisitionUnsuccessful(lease.policy, None));
        }
        response := container.PatchItem(key, response.doc.etag, env.cosmos(1), env.now);
        requests := 2;
        if response.Conflict? {
          return Fail(LeaseAcquisitionUnsuccessful(lease.policy, None));
        }
        if !response.NotFound? {
          lease.SetLastAcquired(Some(env.now));
          return Pass;
        }
      } else if !response.NotFound? {
        return Fail(InvalidOperation);
      }
      var updated := Acquire(lease.policy, lease.id, env.Shift(1, requests));
      if updated.Failure? {
        return Fail(updated.error);
      }
      lease.SetLastAcquired(updated.value.lastAcquired);
      r := Pass;
    }

    /** `ReleaseAsync`: only a Cosmos DB lease; the requests of `ReleaseSteps`, after
        which a successful release forgets `LastAcquired`. */
    method Release(lease: Lease?, env: Env) returns (r: Outcome<Error>)
      modifies container, lease
      ensures lease == null ==> r == Fail(ArgumentNull) && unchanged(container)
      ensures lease != null && !lease.provider.CosmosDb? ==> r == Fail(Argument) && unchanged(container) && unchanged(lease)
      ensures lease != null ==> lease.id == old(lease.id) && lease.released == old(lease.released)
      ensures lease != null && lease.provider.CosmosDb? ==>
                var key := BuildPartitionKey(rootPartitionKey, LeaseObjectId(lease.policy.name, env.freshId(0)));
                var (o, s) := ReleaseSteps(old(container.store), key, lease.id, env.cosmos, env.now);
                r == o && container.store == s
                && (o.Pass? ==> lease.lastAcquired == None)
                && (o.Fail? ==> unchanged(lease))
    {
      if lease == null {
        return Fail(ArgumentNull);
      }
      if !lease.provider.CosmosDb? {
        return Fail(Argument);
      }
      var key := BuildPartitionKey(rootPartitionKey, LeaseObjectId(lease.policy.name, env.freshId(0)));
      var response := container.ReadItem(key, env.cosmos(0), env.now);
      if response.Ok? && OwnsLease(response, lease.id) == Success(true) {
        response := container.DeleteItem(key, response.doc.etag, env.cosmos(1), env.now);
        if !response.Ok? && !response.NotFound? {
          return Fail(InvalidOperation);
        }
      } else if !response.Ok? && !response.NotFound? {
        return Fail(InvalidOperation);
      }
      lease.SetLastAcquired(None);
      r := Pass;
    }
  }
}
