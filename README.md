# Corvus.Leasing in Dafny

A model of the core of Corvus.Leasing, a .NET library for distributed leases used as
mutexes. The model covers:

- the `Lease` base class and its expiry rules;
- `LeasePolicy` and `LeaseSet`;
- the three providers behind `ILeaseProvider`: in-memory, Azure blob leases and Cosmos DB
  documents;
- the lease tokens of the in-memory and Azure leases;
- the retry policies;
- the `LeaseProviderExtensions` that run an action under a lease while a background loop
  renews it.

The leases, the policies, the providers, the in-memory dictionary and the Cosmos DB
container are classes whose methods update their fields. The decisions behind those
methods are functions, with lemmas about them:

- the expiry test;
- the token text;
- the exception filters;
- the retry settings;
- the Cosmos DB request sequences.

Everything a call takes from outside the process comes in as a value of `Leasing.Env`:

- the clock;
- the GUIDs it draws, in order;
- the replies of the blob service;
- what other parties do to the document store before each request.

Files, in dependency order:

- `wrappers.dfy`: `Option`, `Result` and `Outcome`.
- `time.dfy`: ticks, the seconds component of a `TimeSpan`, banker's rounding, and Unix
  milliseconds.
- `decimal.dfy`, `casing.dfy`: `long.ToString`/`long.Parse` (white space, sign, ASCII
  digits and the trailing NULs .NET tolerates) and ASCII `ToLowerInvariant`.
- `lease_policy.dfy`, `errors.dfy`, `retry_policies.dfy`.
- `token_text.dfy`: the six-line token before its base64url step.
- `expiry.dfy`: `Expires`, `LeaseHasExpired` and `HasLease`.
- `azure_rules.dfy`: the Azure provider's exception reclassification.
- `cosmos_store.dfy`, `cosmos_leases.dfy`: the document container as a value, and the
  request sequences of the Cosmos DB provider.
- `leasing.dfy`: leases, the in-memory dictionary, and the three providers.
- `lease_set.dfy`: `LeaseSet`.
- `orchestration.dfy`: `LeaseProviderExtensions`.

## Behaviour kept as written

The model follows the code wherever it departs from what one would expect or from the
library's own documentation. Each point below is proved as a lemma or stated in a
contract.

- **Expiry.** `LeaseHasExpired` tests the SECONDS COMPONENT of the time left
  (`TimeSpan.Seconds`). A lease is therefore expired:
  - whenever less than a second is left;
  - at every whole-minute mark, including the moment of acquisition for a whole-minute
    duration.
  
  A lease without a duration is always expired, although its `Expires` is the largest
  timestamp. See `Expiry.UnexpiredIff`, `Expiry.WholeMinuteLeaseExpiredAtAcquisition`,
  `Expiry.NinetySecondLease` and `Expiry.NoDurationIsAlwaysExpired`.
- **Several-name acquisition.** The documentation says that leases already granted are
  released when another name fails. The code's cleanup runs over a result array that is
  still empty, so those leases stay held. `LeaseProviderExtensions.AcquireAllWithRenewalTask`
  states that they stay held. The in-memory provider's `AcquireAsync` is not `async`: its
  refusal is thrown while `Task.WhenAll` enumerates the per-name calls, so the names after
  the refused one are never tried (`LeaseProviderExtensions.AcquireEach`). An empty list of
  names fails with `IndexOutOfRangeException`.
- **Retry policy name.** `DoNotRetryOnInvalidOperationPolicy` refuses only
  `ArgumentOutOfRangeException`, so an `InvalidOperationException` is retried (see
  `RetryPolicies.AzureStepRetriesInvalidOperation`).
- **Cosmos DB extension.** A patch refused by its ETag precondition (412) counts as a successful
  extension (see `CosmosLeases.ExtendOverlooksTakeover`).
- **Empty token fields.** An empty id or name in a token shifts the fields after it,
  because reading drops empty lines (`TokenText.SplitJoinedLines`). An empty actor name
  comes back as the literal `<no value>`.
- **Mutex release.** In `ExecuteWithMutexAsync` a failing release replaces the action's
  result.

## Model

| member | source | states |
|---|---|---|
| Time.SecondsComponent | Solutions/Corvus.Leasing.Abstractions/Corvus/Leasing/Lease.cs:122 | `TimeSpan.Seconds` lies in -59..59 and has the sign of the span |
| Time.SecondsComponentPositive | Solutions/Corvus.Leasing.Abstractions/Corvus/Leasing/Lease.cs:122 | the seconds component is positive iff the span holds at least one second and its whole seconds are not a multiple of 60 |
| Time.RoundHalfEven | Solutions/Corvus.Leasing.Abstractions/Corvus/Leasing/LeaseProviderExtensions.cs:1100 | `Math.Round` of a tick ratio with ties to even; its meaning is proved by `Time.RoundHalfEvenNearest` and `Time.RoundHalfEvenUnique` |
| Time.RoundHalfEvenNearest | Solutions/Corvus.Leasing.Abstractions/Corvus/Leasing/LeaseProviderExtensions.cs:1100 | `Math.Round(n/d)` is within half a unit of n/d, no integer is nearer, and it is even on a tie |
| Time.RoundHalfEvenUnique | Solutions/Corvus.Leasing.Abstractions/Corvus/Leasing/LeaseProviderExtensions.cs:1152 | a value less than half a unit from k·d rounds to k |
| Time.ToUnixTimeMilliseconds | Solutions/Corvus.Leasing.InMemory/Corvus/Leasing/Internal/InMemoryLease.cs:114 | every timestamp has Unix milliseconds inside the range that `FromUnixTimeMilliseconds` accepts |
| Time.FromUnixTimeMilliseconds | Solutions/Corvus.Leasing.InMemory/Corvus/Leasing/Internal/InMemoryLease.cs:94 | defined exactly on the representable range, and there the inverse of `ToUnixTimeMilliseconds` |
| Time.SpanFromMilliseconds | Solutions/Corvus.Leasing.InMemory/Corvus/Leasing/Internal/InMemoryLease.cs:99 | a span it yields fits in 64-bit ticks, is whole milliseconds and holds the given count |
| Time.UnixMillisecondsRoundTrip | Solutions/Corvus.Leasing.InMemory/Corvus/Leasing/Internal/InMemoryLease.cs:94-114 | a timestamp survives the millisecond round trip up to its sub-millisecond ticks |
| Time.SpanMillisecondsRoundTrip | Solutions/Corvus.Leasing.InMemory/Corvus/Leasing/Internal/InMemoryLease.cs:99-116 | a whole-millisecond span survives the millisecond round trip exactly |
| Decimal.ParseLong | Solutions/Corvus.Leasing.InMemory/Corvus/Leasing/Internal/InMemoryLease.cs:94 | `long.Parse` with `NumberStyles.Integer`: trailing NULs dropped, white space trimmed, one optional sign, then ASCII digits; a number it accepts lies in the 64-bit range |
| Decimal.LongParse | Solutions/Corvus.Leasing.InMemory/Corvus/Leasing/Internal/InMemoryLease.cs:94 | the three results of `long.Parse`: a number, a `FormatException` or an `OverflowException` |
| Decimal.IntToString | Solutions/Corvus.Leasing.InMemory/Corvus/Leasing/Internal/InMemoryLease.cs:114 | `long.ToString()`: non-empty, an optional minus sign then digits; `Decimal.ParseIntToString` proves that `long.Parse` reads it back |
| Decimal.MillisecondsText | Solutions/Corvus.Leasing.InMemory/Corvus/Leasing/Internal/InMemoryLease.cs:116 | `TotalMilliseconds.ToString()` as an exact decimal; `Decimal.WholeMillisecondsText` and `Decimal.FractionalMillisecondsNotANumber` state what reading it back gives |
| Decimal.ParseIntToString | Solutions/Corvus.Leasing.InMemory/Corvus/Leasing/Internal/InMemoryLease.cs:94-114 | `long.Parse` gives back exactly what `long.ToString` wrote |
| Decimal.DecimalPointIsNotANumber | Solutions/Corvus.Leasing.InMemory/Corvus/Leasing/Internal/InMemoryLease.cs:99 | a text with a decimal point is a `FormatException` for `long.Parse` |
| Decimal.TrailingNulIgnored | Solutions/Corvus.Leasing.InMemory/Corvus/Leasing/Internal/InMemoryLease.cs:94-99 | a NUL at the end of the text changes nothing, so "5\0" reads as 5 |
| Decimal.ForeignCharacterIsNotANumber | Solutions/Corvus.Leasing.InMemory/Corvus/Leasing/Internal/InMemoryLease.cs:94-99 | any character other than white space, a sign, a digit or NUL makes the text a `FormatException`, wherever it stands |
| Decimal.MillisecondsTextIsOneLine | Solutions/Corvus.Leasing.InMemory/Corvus/Leasing/Internal/InMemoryLease.cs:116 | the text of `TotalMilliseconds` is never empty and holds no new line |
| Decimal.WholeMillisecondsText | Solutions/Corvus.Leasing.InMemory/Corvus/Leasing/Internal/InMemoryLease.cs:116 | a whole-millisecond duration is written as a plain integer |
| Decimal.FractionalMillisecondsNotANumber | Solutions/Corvus.Leasing.InMemory/Corvus/Leasing/Internal/InMemoryLease.cs:99-116 | a duration with a fraction of a millisecond is written so that reading it back is a `FormatException` |
| Casing.Lower | Solutions/Corvus.Leasing.Azure/Corvus/Leasing/Internal/AzureLeaseProvider.cs:73 | `ToLowerInvariant` keeps the length and lowers each ASCII letter |
| Casing.LowerHasNoUpperCase | Solutions/Corvus.Leasing.Azure/Corvus/Leasing/Internal/AzureLeaseProvider.cs:73 | no upper-case ASCII letter is left after lowering |
| Casing.LowerIdempotent | Solutions/Corvus.Leasing.Azure/Corvus/Leasing/Internal/AzureLeaseProvider.cs:159 | lowering twice is lowering once, so names that differ only in case name one blob |
| LeasePolicies.LeasePolicy.constructor | Solutions/Corvus.Leasing.Abstractions/Corvus/Leasing/LeasePolicy.cs:18-21 | a null name becomes the generated GUID; any other name, "" included, is kept; no actor name and no duration |
| LeasePolicies.LeasePolicy.SetName | Solutions/Corvus.Leasing.Abstractions/Corvus/Leasing/LeasePolicy.cs:38 | the setter stores the value, null included, and changes nothing else |
| LeasePolicies.LeasePolicy.SetActorName | Solutions/Corvus.Leasing.Abstractions/Corvus/Leasing/LeasePolicy.cs:26 | the setter stores the value and changes nothing else |
| LeasePolicies.LeasePolicy.SetDuration | Solutions/Corvus.Leasing.Abstractions/Corvus/Leasing/LeasePolicy.cs:32 | the setter stores the value and changes nothing else |
| LeasePolicies.NewPolicy | Solutions/Corvus.Leasing.Abstractions/Corvus/Leasing/LeaseProviderExtensions.cs:1108 | the object initialiser yields a fresh policy with exactly the three given values |
| RetryPolicies.RetryUntilLeaseAcquired | Solutions/Corvus.Leasing.Abstractions/Corvus/Leasing/Retry/Policies/RetryUntilLeaseAcquiredPolicy.cs:21-24 | only a failed acquisition is retried; an aggregate is not |
| RetryPolicies.DoNotRetryOnLeaseAcquisitionUnsuccessful | Solutions/Corvus.Leasing.Abstractions/Corvus/Leasing/Retry/Policies/DoNotRetryOnLeaseAcquisitionUnsuccessfulPolicy.cs:22-25 | everything except a failed acquisition is retried, aggregates included |
| RetryPolicies.DoNotRetryOnInitializationFailure | Solutions/Corvus.Leasing.Abstractions/Corvus/Leasing/Retry/Policies/DoNotRetryOnInitializationFailurePolicy.cs:17-20 | everything except an initialisation failure is retried |
| RetryPolicies.DoNotRetryOnConflict | Solutions/Corvus.Leasing.Azure/Corvus/Leasing/Internal/DoNotRetryOnConflictPolicy.cs:22-25 | refuses exactly a storage failure with status 409 |
| RetryPolicies.DoNotRetryOnInvalidOperation | Solutions/Corvus.Leasing.Azure/Corvus/Leasing/Internal/DoNotRetryOnInvalidOperationPolicy.cs:21-24 | refuses exactly `ArgumentOutOfRangeException`; an invalid operation is retried |
| RetryPolicies.AcquisitionPoliciesComplementary | Solutions/Corvus.Leasing.Abstractions/Corvus/Leasing/Retry/Policies/RetryUntilLeaseAcquiredPolicy.cs:21-24 | the two acquisition policies answer opposite ways on every error |
| RetryPolicies.AggregateIsNotUnwrapped | Solutions/Corvus.Leasing.Abstractions/Corvus/Leasing/Retry/Policies/RetryUntilLeaseAcquiredPolicy.cs:23 | an aggregate holding a failed acquisition is judged by its outer type: not retried by one policy, retried by the other |
| RetryPolicies.AggregatedInitializationFailureRetried | Solutions/Corvus.Leasing.Abstractions/Corvus/Leasing/Retry/Policies/DoNotRetryOnInitializationFailurePolicy.cs:19 | a wrapped initialisation failure is retried |
| RetryPolicies.ConflictPolicyStatuses | Solutions/Corvus.Leasing.Azure/Corvus/Leasing/Internal/DoNotRetryOnConflictPolicy.cs:24 | every status but 409, 400 and 412 included, may be retried |
| RetryPolicies.AzureStoreStepCanRetry | Solutions/Corvus.Leasing.Azure/Corvus/Leasing/Internal/AzureLeaseProvider.cs:99 | under an all-must-agree aggregate, a blob step is retried iff the error is not out-of-range, not a 409, and not an initialisation failure |
| RetryPolicies.AzureStepRetriesInvalidOperation | Solutions/Corvus.Leasing.Azure/Corvus/Leasing/Internal/AzureLeaseProvider.cs:86-99 | the invalid operation a bad name or duration raises is retried, a conflict is not |
| TokenText.SplitLines | Solutions/Corvus.Leasing.InMemory/Corvus/Leasing/Internal/InMemoryLease.cs:87 | splitting with `RemoveEmptyEntries` yields only non-empty lines without new lines |
| TokenText.TokenLines | Solutions/Corvus.Leasing.InMemory/Corvus/Leasing/Internal/InMemoryLease.cs:111-117 | the six lines `GetToken` appends in order, a null id or name as an empty line; `TokenText.TokenLinesSplitBack` proves they are the lines read back |
| TokenText.EncodePayload | Solutions/Corvus.Leasing.InMemory/Corvus/Leasing/Internal/InMemoryLease.cs:109-119 | `GetToken` before base64url: the six lines each ended by a new line; `TokenText.DecodeEncode` proves decoding inverts it |
| TokenText.DecodePayload | Solutions/Corvus.Leasing.InMemory/Corvus/Leasing/Internal/InMemoryLease.cs:74-103 | `FromToken` after base64url: split, then `TokenText.DecodeLines`; `TokenText.ForeignTokenRefused` and `TokenText.DecodeEncode` state its outcomes |
| TokenText.SplitJoinedLines | Solutions/Corvus.Leasing.InMemory/Corvus/Leasing/Internal/InMemoryLease.cs:87 | reading back appended lines gives the lines minus the empty ones (the field shift) |
| TokenText.SplitJoinedNonEmptyLines | Solutions/Corvus.Leasing.InMemory/Corvus/Leasing/Internal/InMemoryLease.cs:87 | with no empty and no multi-line field, the split undoes the join exactly |
| TokenText.ParseTimestampLine | Solutions/Corvus.Leasing.InMemory/Corvus/Leasing/Internal/InMemoryLease.cs:94 | the null marker reads as no `LastAcquired` |
| TokenText.ParseDurationLine | Solutions/Corvus.Leasing.InMemory/Corvus/Leasing/Internal/InMemoryLease.cs:99 | the null marker reads as no duration |
| TokenText.DecodeLines | Solutions/Corvus.Leasing.InMemory/Corvus/Leasing/Internal/InMemoryLease.cs:88-102 | success needs six lines headed by the content type and restores lines 1, 3 and 5 with the parsed lines 2 and 4; a wrong first line is a `TokenizationException` |
| TokenText.TruncatedToMillisecond | Solutions/Corvus.Leasing.InMemory/Corvus/Leasing/Internal/InMemoryLease.cs:114 | the truncated time is the whole millisecond at or below the time |
| TokenText.TimestampLineRoundTrip | Solutions/Corvus.Leasing.InMemory/Corvus/Leasing/Internal/InMemoryLease.cs:94-114 | the `LastAcquired` line is one line and reads back as the time truncated to the millisecond |
| TokenText.DurationLineRoundTrip | Solutions/Corvus.Leasing.InMemory/Corvus/Leasing/Internal/InMemoryLease.cs:99-116 | a whole-millisecond duration line is one line and reads back as the same duration |
| TokenText.DecodedActorName | Solutions/Corvus.Leasing.InMemory/Corvus/Leasing/Internal/InMemoryLease.cs:115 | a null or empty actor name comes back as `<no value>`, any other as itself |
| TokenText.TokenLinesSplitBack | Solutions/Corvus.Leasing.InMemory/Corvus/Leasing/Internal/InMemoryLease.cs:87-117 | the six lines written for single-line fields are the lines read back |
| TokenText.DecodeEncode | Solutions/Corvus.Leasing.InMemory/Corvus/Leasing/Internal/InMemoryLease.cs:74-119 | decoding an encoded token restores id, name and duration exactly, `LastAcquired` to the millisecond and the actor name up to the null marker |
| TokenText.ForeignTokenRefused | Solutions/Corvus.Leasing.InMemory/Corvus/Leasing/Internal/InMemoryLease.cs:88-91 | a token headed by another content type is a `TokenizationException` |
| TokenText.CrossProviderTokensRefused | Solutions/Corvus.Leasing.Azure/Corvus/Leasing/Internal/AzureLease.cs:74-77 | each provider's reader refuses the other provider's tokens |
| TokenText.ContentTypesAreLines | Solutions/Corvus.Leasing.InMemory/Corvus/Leasing/Internal/InMemoryLease.cs:17 | both content types are single non-empty lines |
| Expiry.ExpiresAtCases | Solutions/Corvus.Leasing.Abstractions/Corvus/Leasing/Lease.cs:59-70 | `Expires` is absent iff `LastAcquired` is; otherwise it is acquisition plus duration, or the largest timestamp without a duration |
| Expiry.ExpiresAt | Solutions/Corvus.Leasing.Abstractions/Corvus/Leasing/Lease.cs:59-70 | `Expires`, whose three cases `Expiry.ExpiresAtCases` states |
| Expiry.HasExpired | Solutions/Corvus.Leasing.Abstractions/Corvus/Leasing/Lease.cs:111-129 | `LeaseHasExpired`, characterized by `Expiry.UnexpiredIff`, `Expiry.NoDurationIsAlwaysExpired` and `Expiry.NeverAcquiredIsHeldUntilReleased` |
| Expiry.HasLease | Solutions/Corvus.Leasing.Abstractions/Corvus/Leasing/Lease.cs:84-87 | `HasLease`: not expired and not released; see `Expiry.ReleasedIsNeverHeld` |
| Expiry.NeverAcquiredIsHeldUntilReleased | Solutions/Corvus.Leasing.Abstractions/Corvus/Leasing/Lease.cs:111-116 | a lease never acquired never expires and is held iff it is not released |
| Expiry.NoDurationIsAlwaysExpired | Solutions/Corvus.Leasing.Abstractions/Corvus/Leasing/Lease.cs:111-129 | an acquired lease without a duration is expired and not held at every time, while `Expires` is the largest timestamp |
| Expiry.ReleasedIsNeverHeld | Solutions/Corvus.Leasing.Abstractions/Corvus/Leasing/Lease.cs:84-87 | a released lease is not held at any time |
| Expiry.UnexpiredIff | Solutions/Corvus.Leasing.Abstractions/Corvus/Leasing/Lease.cs:118-128 | unexpired iff at least a second is left and the whole seconds left are not a multiple of a minute |
| Expiry.LastMinuteExpiry | Solutions/Corvus.Leasing.Abstractions/Corvus/Leasing/Lease.cs:122 | within the last minute, expired iff less than a second is left |
| Expiry.WholeMinuteLeaseExpiredAtAcquisition | Solutions/Corvus.Leasing.Abstractions/Corvus/Leasing/Lease.cs:122 | a whole-minute lease is expired at the moment it is acquired |
| Expiry.NinetySecondLease | Solutions/Corvus.Leasing.Abstractions/Corvus/Leasing/Lease.cs:122 | a 90-second lease is held at acquisition and expired between 29 and 30 seconds in |
| AzureRules.StepError | Solutions/Corvus.Leasing.Azure/Corvus/Leasing/Internal/AzureLeaseProvider.cs:86-95 | a 400 or an out-of-range error becomes an invalid operation; everything else passes through |
| AzureRules.AcquireFailure | Solutions/Corvus.Leasing.Azure/Corvus/Leasing/Internal/AzureLeaseProvider.cs:132-143 | a 409 becomes a failed acquisition carrying the policy and the cause; anything else is rethrown as is |
| AzureRules.BlobStepFailure | Solutions/Corvus.Leasing.Azure/Corvus/Leasing/Internal/AzureLeaseProvider.cs:86-143 | what a failing blob step finally throws; `AzureRules.BlobStepFailureClassified` and `AzureRules.OnlyConflictIsUnsuccessful` state each case |
| AzureRules.BlobStepFailureClassified | Solutions/Corvus.Leasing.Azure/Corvus/Leasing/Internal/AzureLeaseProvider.cs:86-143 | what a failing blob step finally throws, for the conflict, bad-request and every other case |
| AzureRules.OnlyConflictIsUnsuccessful | Solutions/Corvus.Leasing.Azure/Corvus/Leasing/Internal/AzureLeaseProvider.cs:134-137 | a blob step reports a failed acquisition iff the store raised a 409 |
| CosmosStore.PartitionKeyMatchesContainer | Solutions/Corvus.Leasing.CosmosDb/Corvus.Leasing/Internal/CosmosDbLeaseProvider.cs:61-83 | the key built for a lease has one value per partition path of the container, root key first and object id last; items have no default time to live |
| CosmosStore.GetContainerProperties | Solutions/Corvus.Leasing.CosmosDb/Corvus.Leasing/Internal/CosmosDbLeaseProvider.cs:61-83 | partitioned by root key and id, or by id alone, with no default time to live; `CosmosStore.PartitionKeyMatchesContainer` ties it to the keys |
| CosmosStore.BuildPartitionKey | Solutions/Corvus.Leasing.CosmosDb/Corvus.Leasing/Internal/CosmosDbLeaseProvider.cs:339-350 | the root key value when configured, then the object id; see `CosmosStore.PartitionKeyMatchesContainer` |
| CosmosStore.LeaseObjectId | Solutions/Corvus.Leasing.CosmosDb/Corvus.Leasing/Internal/CosmosDbLeaseProvider.cs:309-312 | the lower-cased name or fresh id; `CosmosStore.ObjectIdIgnoresCase` states the consequence |
| CosmosStore.LeaseTtl | Solutions/Corvus.Leasing.CosmosDb/Corvus.Leasing/Internal/CosmosDbLeaseProvider.cs:163-166 | the `ttl` in seconds, characterized by `CosmosStore.LeaseTtlNearest` |
| CosmosStore.Apply | Solutions/Corvus.Leasing.CosmosDb/Corvus.Leasing/Internal/CosmosDbLeaseProvider.cs:163-166 | what happens to the store before a request (another party's write or delete, a fault, the service's time-to-live expiry): the ETag invariant is kept and the next ETag never goes down |
| CosmosStore.ObjectIdIgnoresCase | Solutions/Corvus.Leasing.CosmosDb/Corvus.Leasing/Internal/CosmosDbLeaseProvider.cs:309-312 | names that differ only in case share one document key |
| CosmosStore.LeaseTtlNearest | Solutions/Corvus.Leasing.CosmosDb/Corvus.Leasing/Internal/CosmosDbLeaseProvider.cs:163-166 | the `ttl` is 59 by default and otherwise the nearest whole number of seconds |
| CosmosStore.Read | Solutions/Corvus.Leasing.CosmosDb/Corvus.Leasing/Internal/CosmosDbLeaseProvider.cs:96 | a document read is the one stored under the key; the ETag invariant is kept |
| CosmosStore.Create | Solutions/Corvus.Leasing.CosmosDb/Corvus.Leasing/Internal/CosmosDbLeaseProvider.cs:134 | a created document is stored under the key with the given lease id; the ETag invariant is kept |
| CosmosStore.PatchIncrement | Solutions/Corvus.Leasing.CosmosDb/Corvus.Leasing/Internal/CosmosDbLeaseProvider.cs:212 | the ETag-guarded patch keeps the ETag invariant |
| CosmosStore.Delete | Solutions/Corvus.Leasing.CosmosDb/Corvus.Leasing/Internal/CosmosDbLeaseProvider.cs:277 | the ETag-guarded delete keeps the ETag invariant |
| CosmosStore.CreateThenRead | Solutions/Corvus.Leasing.CosmosDb/Corvus.Leasing/Internal/CosmosDbLeaseProvider.cs:128-134 | a create on a free key succeeds and a read then finds that document |
| CosmosStore.PatchWithCurrentEtag | Solutions/Corvus.Leasing.CosmosDb/Corvus.Leasing/Internal/CosmosDbLeaseProvider.cs:205-212 | a patch with the current ETag keeps the owner, bumps the acquisition token and gives a new ETag |
| CosmosStore.StaleEtagRefused | Solutions/Corvus.Leasing.CosmosDb/Corvus.Leasing/Internal/CosmosDbLeaseProvider.cs:212 | after another party's write, a patch or delete with the old ETag is a 412 and the other party's document stays |
| CosmosStore.DeleteWithCurrentEtag | Solutions/Corvus.Leasing.CosmosDb/Corvus.Leasing/Internal/CosmosDbLeaseProvider.cs:276-277 | a delete with the current ETag removes exactly that document |
| CosmosStore.ExpireRemovesLapsed | Solutions/Corvus.Leasing.CosmosDb/Corvus.Leasing/Internal/CosmosDbLeaseProvider.cs:110 | time-to-live expiry removes exactly the lapsed documents |
| CosmosLeases.OwnsLease | Solutions/Corvus.Leasing.CosmosDb/Corvus.Leasing/Internal/CosmosDbLeaseProvider.cs:317-337 | ownership is decided iff the reply is a document, and holds iff that document names the lease id |
| CosmosLeases.AcquireSteps | Solutions/Corvus.Leasing.CosmosDb/Corvus.Leasing/Internal/CosmosDbLeaseProvider.cs:95-156 | the acquisition's requests keep the store's ETag invariant |
| CosmosLeases.ExtendSteps | Solutions/Corvus.Leasing.CosmosDb/Corvus.Leasing/Internal/CosmosDbLeaseProvider.cs:179-228 | the extension's requests keep the store's ETag invariant |
| CosmosLeases.ReleaseSteps | Solutions/Corvus.Leasing.CosmosDb/Corvus.Leasing/Internal/CosmosDbLeaseProvider.cs:255-292 | the release's requests keep the store's ETag invariant |
| CosmosLeases.AcquireStepsOutcome | Solutions/Corvus.Leasing.CosmosDb/Corvus.Leasing/Internal/CosmosDbLeaseProvider.cs:95-161 | success leaves a document naming the lease id; failure is a lost race, an invalid operation or an unreadable reply |
| CosmosLeases.AcquireFreeKey | Solutions/Corvus.Leasing.CosmosDb/Corvus.Leasing/Internal/CosmosDbLeaseProvider.cs:98-134 | on a free key the exact new document is created (ids, `ttl`, zero token, next ETag) |
| CosmosLeases.AcquireExistingKey | Solutions/Corvus.Leasing.CosmosDb/Corvus.Leasing/Internal/CosmosDbLeaseProvider.cs:150-156 | an existing document grants the lease iff it names the same id, without a write |
| CosmosLeases.AcquireLosesRace | Solutions/Corvus.Leasing.CosmosDb/Corvus.Leasing/Internal/CosmosDbLeaseProvider.cs:136-141 | another party's write between read and create makes the acquisition fail and its document stays |
| CosmosLeases.ExtendByOwner | Solutions/Corvus.Leasing.CosmosDb/Corvus.Leasing/Internal/CosmosDbLeaseProvider.cs:205-228 | the owner's extension patches its document in place: same owner, token one higher, new ETag |
| CosmosLeases.ExtendByOther | Solutions/Corvus.Leasing.CosmosDb/Corvus.Leasing/Internal/CosmosDbLeaseProvider.cs:185-203 | another owner's document refuses the extension; a missing one hands over to re-acquisition |
| CosmosLeases.ExtendOverlooksTakeover | Solutions/Corvus.Leasing.CosmosDb/Corvus.Leasing/Internal/CosmosDbLeaseProvider.cs:212-228 | a takeover between read and patch still reports the extension as successful |
| CosmosLeases.ReleasedMeansNotOwned | Solutions/Corvus.Leasing.CosmosDb/Corvus.Leasing/Internal/CosmosDbLeaseProvider.cs:255-292 | after a successful release no document under the key names the lease (barring a bare 404 fault) |
| CosmosLeases.ReleaseByOwner | Solutions/Corvus.Leasing.CosmosDb/Corvus.Leasing/Internal/CosmosDbLeaseProvider.cs:276-292 | the owner's release deletes exactly its document |
| CosmosLeases.ReleaseAfterTakeover | Solutions/Corvus.Leasing.CosmosDb/Corvus.Leasing/Internal/CosmosDbLeaseProvider.cs:277-290 | a takeover between read and delete makes the release an invalid operation and the other party's document stays |
| Leasing.ProviderRef.Acquire | Solutions/Corvus.Leasing.Abstractions/Corvus/Leasing/ILeaseProvider.cs:79 | any provider: a null policy is refused; a granted lease is new, of this provider, with the policy, an id, stamped now, not released |
| Leasing.ProviderRef.Extend | Solutions/Corvus.Leasing.Abstractions/Corvus/Leasing/ILeaseProvider.cs:86 | any provider: success restamps its own lease now; failure leaves the lease unchanged; id and `Released` are kept |
| Leasing.ProviderRef.Release | Solutions/Corvus.Leasing.Abstractions/Corvus/Leasing/ILeaseProvider.cs:93 | any provider: id and `Released` kept; Azure and Cosmos DB forget `LastAcquired` on success; in-memory leaves the lease alone |
| Leasing.Lease.NewInMemory | Solutions/Corvus.Leasing.InMemory/Corvus/Leasing/Internal/InMemoryLease.cs:32-36 | a new in-memory lease is stamped with the current time |
| Leasing.Lease.RestoredInMemory | Solutions/Corvus.Leasing.InMemory/Corvus/Leasing/Internal/InMemoryLease.cs:51-55 | a restored in-memory lease carries the given `LastAcquired` |
| Leasing.Lease.NewAzure | Solutions/Corvus.Leasing.Azure/Corvus/Leasing/Internal/AzureLease.cs:27-30 | a new Azure lease is not stamped |
| Leasing.Lease.RestoredAzure | Solutions/Corvus.Leasing.Azure/Corvus/Leasing/Internal/AzureLease.cs:39-43 | a restored Azure lease carries the given `LastAcquired` |
| Leasing.Lease.NewCosmosDb | Solutions/Corvus.Leasing.CosmosDb/Corvus.Leasing/Internal/CosmosDbLeaseProvider.cs:158 | a new Cosmos DB lease is not stamped |
| Leasing.Lease.Expires | Solutions/Corvus.Leasing.Abstractions/Corvus/Leasing/Lease.cs:59-70 | `Expires` from the lease's own fields, as `Expiry.ExpiresAt` |
| Leasing.Lease.HasLease | Solutions/Corvus.Leasing.Abstractions/Corvus/Leasing/Lease.cs:84-87 | `HasLease` from the lease's own fields, as `Expiry.HasLease` |
| Leasing.Lease.GetToken | Solutions/Corvus.Leasing.InMemory/Corvus/Leasing/Internal/InMemoryLease.cs:109-119 | the token of an in-memory or Azure lease with its own content type; the providers' `TokenRoundTrip` read it back |
| Leasing.Lease.Stamp | Solutions/Corvus.Leasing.InMemory/Corvus/Leasing/Internal/InMemoryLease.cs:63-66 | `SetLastAcquired()` stamps now and changes nothing else |
| Leasing.Lease.SetLastAcquired | Solutions/Corvus.Leasing.Azure/Corvus/Leasing/Internal/AzureLease.cs:119-122 | stores any value, null included, and changes nothing else |
| Leasing.Lease.ClearId | Solutions/Corvus.Leasing.Azure/Corvus/Leasing/Internal/AzureLease.cs:110-113 | clears the id and changes nothing else |
| Leasing.Lease.ReleaseAsync | Solutions/Corvus.Leasing.Abstractions/Corvus/Leasing/Lease.cs:93-100 | a lease not held is left alone; a held one is marked released iff its provider's release succeeds; afterwards a successful call leaves it not held; a failure changes nothing |
| Leasing.Lease.ExtendAsync | Solutions/Corvus.Leasing.Abstractions/Corvus/Leasing/Lease.cs:106-109 | success stamps the lease now; failure keeps `LastAcquired`; id and `Released` kept |
| Leasing.InMemoryTable.constructor | Solutions/Corvus.Leasing.InMemory/Corvus/Leasing/Internal/InMemoryLeaseProvider.cs:19 | the shared dictionary starts empty |
| Leasing.InMemoryLeaseProvider.constructor | Solutions/Corvus.Leasing.InMemory/Corvus/Leasing/Internal/InMemoryLeaseProvider.cs:17-19 | every in-memory provider works on the given shared dictionary |
| Leasing.InMemoryLeaseProvider.Acquire | Solutions/Corvus.Leasing.InMemory/Corvus/Leasing/Internal/InMemoryLeaseProvider.cs:25-45 | refused, with the dictionary unchanged, iff the stored lease under the id has an expiry still ahead; otherwise a new lease stamped now replaces the entry |
| Leasing.InMemoryLeaseProvider.Extend | Solutions/Corvus.Leasing.InMemory/Corvus/Leasing/Internal/InMemoryLeaseProvider.cs:48-57 | restamps an in-memory lease, ignores any other, refuses null |
| Leasing.InMemoryLeaseProvider.Release | Solutions/Corvus.Leasing.InMemory/Corvus/Leasing/Internal/InMemoryLeaseProvider.cs:71-81 | removes the entry under the lease's id, whoever stored it; a null id is an `ArgumentNullException` |
| Leasing.InMemoryLeaseProvider.ToLeaseToken | Solutions/Corvus.Leasing.InMemory/Corvus/Leasing/Internal/InMemoryLeaseProvider.cs:84-99 | a token exists iff the lease is in-memory; null is an `ArgumentNullException`, another kind a `TokenizationException` |
| Leasing.InMemoryLeaseProvider.FromLeaseToken | Solutions/Corvus.Leasing.InMemory/Corvus/Leasing/Internal/InMemoryLeaseProvider.cs:60-68 | null is refused; a decoding error is raised as is; otherwise a new lease of this provider with the decoded fields |
| Leasing.InMemoryLeaseProvider.TokenRoundTrip | Solutions/Corvus.Leasing.InMemory/Corvus/Leasing/Internal/InMemoryLease.cs:74-119 | reading this provider's token of a lease with single-line fields gives a lease with the same id, name and duration, the time to the millisecond and the actor name up to the null marker |
| Leasing.InMemoryLeaseProvider.RefusesAzureToken | Solutions/Corvus.Leasing.InMemory/Corvus/Leasing/Internal/InMemoryLease.cs:88-91 | an Azure lease's token is a `TokenizationException` here |
| Leasing.InMemoryDistinctIds | Solutions/Corvus.Leasing.InMemory/Corvus/Leasing/Internal/InMemoryLeaseProvider.cs:34-42 | exclusion is per id: on any shared dictionary in which neither id is held, two different ids are both granted and both stored |
| Leasing.InMemorySameId | Solutions/Corvus.Leasing.InMemory/Corvus/Leasing/Internal/InMemoryLeaseProvider.cs:25-81 | on any shared dictionary in which the id is not held, a second acquisition of it before expiry is refused, and after the release the id is granted again and stored |
| Leasing.InitOutcome | Solutions/Corvus.Leasing.Azure/Corvus/Leasing/Internal/AzureLeaseProvider.cs:214-232 | initialisation fails only when not yet initialised, and then with an `InitializationFailureException` |
| Leasing.AzureLeaseProvider.constructor | Solutions/Corvus.Leasing.Azure/Corvus/Leasing/Internal/AzureLeaseProvider.cs:39-44 | a new provider is not initialised and has no container name |
| Leasing.AzureLeaseProvider.SetContainerName | Solutions/Corvus.Leasing.Azure/Corvus/Leasing/Internal/AzureLeaseProvider.cs:50 | the setter stores the name and leaves the initialisation state alone |
| Leasing.AzureLeaseProvider.ConfiguredContainer | Solutions/Corvus.Leasing.Azure/Corvus/Leasing/Internal/AzureLeaseProvider.cs:208-212 | `GetContainerName`: the configured name or "genericleases", through the name provider with a 63-character limit |
| Leasing.AzureLeaseProvider.Initialise | Solutions/Corvus.Leasing.Azure/Corvus/Leasing/Internal/AzureLeaseProvider.cs:214-232 | the container is chosen again, from the configured name, on every call until a creation succeeds; from then on the provider stays initialised with that container; the verdict is `InitOutcome` |
| Leasing.AzureLeaseProvider.Acquire | Solutions/Corvus.Leasing.Azure/Corvus/Leasing/Internal/AzureLeaseProvider.cs:62-150 | initialise, then the blob steps on the lower-cased name (or a GUID); each failure as classified; a granted blob lease becomes a new Azure lease with its id, stamped now |
| Leasing.AcquireBlob | Solutions/Corvus.Leasing.Azure/Corvus/Leasing/Internal/AzureLeaseProvider.cs:75-123 | the two blob steps: upload an empty blob when none exists, then take a blob lease; each failure through `AzureRules.BlobStepFailure` |
| Leasing.AzureLeaseProvider.Extend | Solutions/Corvus.Leasing.Azure/Corvus/Leasing/Internal/AzureLeaseProvider.cs:153-164 | initialise, renew the blob lease, and restamp an Azure lease; a nameless policy is a `NullReferenceException`; failures leave the lease unchanged |
| Leasing.AzureLeaseProvider.Release | Solutions/Corvus.Leasing.Azure/Corvus/Leasing/Internal/AzureLeaseProvider.cs:175-193 | only Azure leases; initialise, release the blob lease, forget `LastAcquired`; failures leave the lease unchanged |
| Leasing.AzureLeaseProvider.ToLeaseToken | Solutions/Corvus.Leasing.Azure/Corvus/Leasing/Internal/AzureLeaseProvider.cs:196-206 | a token exists iff the lease is an Azure lease; otherwise, null included, a `TokenizationException` |
| Leasing.AzureLeaseProvider.FromLeaseToken | Solutions/Corvus.Leasing.Azure/Corvus/Leasing/Internal/AzureLeaseProvider.cs:167-172 | null is refused; a decoding error is raised as is; otherwise a new Azure lease with the decoded fields |
| Leasing.AzureLeaseProvider.TokenRoundTrip | Solutions/Corvus.Leasing.Azure/Corvus/Leasing/Internal/AzureLease.cs:60-105 | the Azure form of the token round trip |
| Leasing.AzureLeaseProvider.RefusesInMemoryToken | Solutions/Corvus.Leasing.Azure/Corvus/Leasing/Internal/AzureLease.cs:74-77 | an in-memory lease's token is a `TokenizationException` here |
| Leasing.CosmosContainer.constructor | Solutions/Corvus.Leasing.CosmosDb/Corvus.Leasing/Internal/CosmosDbLeaseProvider.cs:29 | the container holds the given store |
| Leasing.CosmosContainer.ReadItem | Solutions/Corvus.Leasing.CosmosDb/Corvus.Leasing/Internal/CosmosDbLeaseProvider.cs:96 | the reply and the new store are those of `CosmosStore.Read` |
| Leasing.CosmosContainer.CreateItem | Solutions/Corvus.Leasing.CosmosDb/Corvus.Leasing/Internal/CosmosDbLeaseProvider.cs:134 | the reply and the new store are those of `CosmosStore.Create` |
| Leasing.CosmosContainer.PatchItem | Solutions/Corvus.Leasing.CosmosDb/Corvus.Leasing/Internal/CosmosDbLeaseProvider.cs:212 | the reply and the new store are those of `CosmosStore.PatchIncrement` |
| Leasing.CosmosContainer.DeleteItem | Solutions/Corvus.Leasing.CosmosDb/Corvus.Leasing/Internal/CosmosDbLeaseProvider.cs:277 | the reply and the new store are those of `CosmosStore.Delete` |
| Leasing.CosmosDbLeaseProvider.constructor | Solutions/Corvus.Leasing.CosmosDb/Corvus.Leasing/Internal/CosmosDbLeaseProvider.cs:39-44 | the provider keeps its container and root partition key |
| Leasing.CosmosDbLeaseProvider.Acquire | Solutions/Corvus.Leasing.CosmosDb/Corvus.Leasing/Internal/CosmosDbLeaseProvider.cs:86-167 | the store afterwards and the verdict are those of `AcquireSteps`; success is a new Cosmos DB lease with the lease id, stamped now |
| Leasing.CosmosDbLeaseProvider.Extend | Solutions/Corvus.Leasing.CosmosDb/Corvus.Leasing/Internal/CosmosDbLeaseProvider.cs:170-230 | only Cosmos DB leases (null is an `ArgumentException`); extended in place, refused, or re-acquired, with the store and stamp of each case |
| Leasing.CosmosDbLeaseProvider.Release | Solutions/Corvus.Leasing.CosmosDb/Corvus.Leasing/Internal/CosmosDbLeaseProvider.cs:241-294 | only Cosmos DB leases; the store and the verdict are those of `ReleaseSteps`; success forgets `LastAcquired` |
| LeaseSets.FirstFailure | Solutions/Corvus.Leasing.Abstractions/Corvus/Leasing/LeaseSet.cs:37 | awaiting `WhenAll` succeeds iff every task succeeded, and otherwise rethrows the first failure in order |
| LeaseSets.FirstFailureAppend | Solutions/Corvus.Leasing.Abstractions/Corvus/Leasing/LeaseSet.cs:37 | appending a success keeps the verdict; appending a failure to all successes makes it the verdict |
| LeaseSets.LeaseSet.constructor | Solutions/Corvus.Leasing.Abstractions/Corvus/Leasing/LeaseSet.cs:20-23 | the set holds the given leases |
| LeaseSets.LeaseSet.ReleaseOne | Solutions/Corvus.Leasing.Abstractions/Corvus/Leasing/LeaseSet.cs:36 | one lease's release: success leaves it not held; every lease is afterwards released or untouched |
| LeaseSets.LeaseSet.ReleaseAll | Solutions/Corvus.Leasing.Abstractions/Corvus/Leasing/LeaseSet.cs:34-38 | every lease's release runs; the verdict is the first failure; each lease released successfully is not held; every lease, including one whose release failed, ends released or untouched |
| LeaseSets.LeaseSet.ExtendOne | Solutions/Corvus.Leasing.Abstractions/Corvus/Leasing/LeaseSet.cs:46 | one lease's extension: success stamps it; the other leases keep their stamps |
| LeaseSets.LeaseSet.ExtendAll | Solutions/Corvus.Leasing.Abstractions/Corvus/Leasing/LeaseSet.cs:44-48 | every lease's extension runs; the verdict is the first failure; on success every lease carries its extension time; ids and `Released` kept |
| LeaseProviderExtensions.DoNotThrowIfLeaseNotAcquired | Solutions/Corvus.Leasing.Abstractions/Corvus/Leasing/LeaseProviderExtensions.cs:32-54 | true iff the awaited `Task` succeeded, false iff it failed with a failed acquisition (or an aggregate whose last inner one is), otherwise rethrown unchanged |
| LeaseProviderExtensions.NotAcquired | Solutions/Corvus.Leasing.Abstractions/Corvus/Leasing/LeaseProviderExtensions.cs:43-52 | the failures absorbed: a failed acquisition, or an aggregate whose last inner exception is one; see `LeaseProviderExtensions.OnlyLastInnerErrorCounts` |
| LeaseProviderExtensions.DoNotThrowIfLeaseNotAcquiredValue | Solutions/Corvus.Leasing.Abstractions/Corvus/Leasing/LeaseProviderExtensions.cs:65-87 | the value form: (true, value), (false, default) on a failed acquisition, otherwise rethrown |
| LeaseProviderExtensions.OnlyLastInnerErrorCounts | Solutions/Corvus.Leasing.Abstractions/Corvus/Leasing/LeaseProviderExtensions.cs:43-52 | only the last inner exception of an aggregate counts; an empty aggregate is rethrown |
| LeaseProviderExtensions.ValueFormAgrees | Solutions/Corvus.Leasing.Abstractions/Corvus/Leasing/LeaseProviderExtensions.cs:32-87 | the two forms give the same flag and rethrow the same failures |
| LeaseProviderExtensions.DefaultRetryStrategy | Solutions/Corvus.Leasing.Abstractions/Corvus/Leasing/LeaseProviderExtensions.cs:1097-1101 | a linear strategy of at least one second with `Int32.MaxValue` tries |
| LeaseProviderExtensions.DefaultRetryDelayIsATenth | Solutions/Corvus.Leasing.Abstractions/Corvus/Leasing/LeaseProviderExtensions.cs:1100 | the default delay is the whole number of seconds nearest to a tenth of the duration |
| LeaseProviderExtensions.RetrySettings | Solutions/Corvus.Leasing.Abstractions/Corvus/Leasing/LeaseProviderExtensions.cs:99-207 | a given strategy or policy is passed on; a missing strategy is the default one |
| LeaseProviderExtensions.TryOnceGivesUp | Solutions/Corvus.Leasing.Abstractions/Corvus/Leasing/LeaseProviderExtensions.cs:201-206 | try-once retries exactly what is not a failed acquisition; the default mutex retries exactly failed acquisitions |
| LeaseProviderExtensions.DefaultPeriods | Solutions/Corvus.Leasing.Abstractions/Corvus/Leasing/LeaseProviderExtensions.cs:1097-1153 | with the default 59 seconds the renewal period is 20 s and the retry delay 6 s |
| LeaseProviderExtensions.RenewalPeriod | Solutions/Corvus.Leasing.Abstractions/Corvus/Leasing/LeaseProviderExtensions.cs:1149-1153 | a third of the duration (or the default) in whole seconds, ties to even; `LeaseProviderExtensions.RenewedBeforeExpiry` and `LeaseProviderExtensions.RenewalPeriodZeroIff` state its meaning |
| LeaseProviderExtensions.WaitAccepted | Solutions/Corvus.Leasing.Abstractions/Corvus/Leasing/LeaseProviderExtensions.cs:1162 | the periods that `WaitOne` accepts; `LeaseProviderExtensions.RenewalWaitAcceptedIff` gives the durations |
| LeaseProviderExtensions.RenewalPeriodZeroIff | Solutions/Corvus.Leasing.Abstractions/Corvus/Leasing/LeaseProviderExtensions.cs:1149-1153 | the renewal period is zero iff the duration is within 1.5 s of zero |
| LeaseProviderExtensions.RenewedBeforeExpiry | Solutions/Corvus.Leasing.Abstractions/Corvus/Leasing/LeaseProviderExtensions.cs:1149-1153 | for durations over 0.75 s the renewal period is shorter than the duration |
| LeaseProviderExtensions.RenewalWaitAcceptedIff | Solutions/Corvus.Leasing.Abstractions/Corvus/Leasing/LeaseProviderExtensions.cs:1162 | `WaitOne` accepts the period iff the duration is in [-1.5 s, 6442450.5 s) |
| LeaseProviderExtensions.CancellationSource.constructor | Solutions/Corvus.Leasing.Abstractions/Corvus/Leasing/LeaseProviderExtensions.cs:494 | a new source is not cancelled |
| LeaseProviderExtensions.CancellationSource.Cancel | Solutions/Corvus.Leasing.Abstractions/Corvus/Leasing/LeaseProviderExtensions.cs:509 | afterwards the token is cancelled |
| LeaseProviderExtensions.LastRenewal | Solutions/Corvus.Leasing.Abstractions/Corvus/Leasing/LeaseProviderExtensions.cs:1160-1179 | the stamp after renewals: the initial one if all failed, otherwise the time of a successful renewal |
| LeaseProviderExtensions.RenewalLoop | Solutions/Corvus.Leasing.Abstractions/Corvus/Leasing/LeaseProviderExtensions.cs:1155-1184 | one extension per wake-up, none when already cancelled or the period is refused; the lease ends with the time of its last successful renewal; id and `Released` kept |
| LeaseProviderExtensions.RenewalLoopAll | Solutions/Corvus.Leasing.Abstractions/Corvus/Leasing/LeaseProviderExtensions.cs:1186-1217 | one `ExtendAllAsync` per wake-up under the same conditions; after a fully successful wake-up every lease carries its time |
| LeaseProviderExtensions.AcquireLeaseWithRenewalTask | Solutions/Corvus.Leasing.Abstractions/Corvus/Leasing/LeaseProviderExtensions.cs:1103-1114 | the lease has the given name and actor and the duration or the default; it is renewed every `RenewalPeriod` and ends with its last renewal time |
| LeaseProviderExtensions.AcquireEach | Solutions/Corvus.Leasing.Abstractions/Corvus/Leasing/LeaseProviderExtensions.cs:1118-1129 | the acquisitions `Task.WhenAll` makes while it enumerates the names; each granted lease has that name, the actor and the duration, stamped at its own time; every name is tried, except that with the in-memory provider the first refusal ends the enumeration, so only the last attempt can fail |
| LeaseProviderExtensions.RenewAcquired | Solutions/Corvus.Leasing.Abstractions/Corvus/Leasing/LeaseProviderExtensions.cs:1130-1131 | the set of the leases, renewed every `RenewalPeriod`, with ids and `Released` kept |
| LeaseProviderExtensions.AcquireAllWithRenewalTask | Solutions/Corvus.Leasing.Abstractions/Corvus/Leasing/LeaseProviderExtensions.cs:1116-1147 | the attempts of `AcquireEach`; the first failure is rethrown while the granted leases stay held; success means every name was acquired; an empty list is an `IndexOutOfRangeException`; otherwise the renewed set of all leases |
| LeaseProviderExtensions.ExecuteWithMutexAttempt | Solutions/Corvus.Leasing.Abstractions/Corvus/Leasing/LeaseProviderExtensions.cs:492-523 | a failed acquisition is the result and nothing runs; otherwise the lease has the given name and actor and the duration or the default, the token ends cancelled, the lease is released, and the action's result stands unless the release failed |
| LeaseProviderExtensions.ExecuteWithPolicyAttempt | Solutions/Corvus.Leasing.Abstractions/Corvus/Leasing/LeaseProviderExtensions.cs:135-138 | the `LeasePolicy` overloads: the acquired lease's policy carries the given policy's name and actor name and its duration or the 59 s default; for a null policy the name and actor name are null and the duration is the default |
| LeaseProviderExtensions.ExecuteWithMutexAllAttempt | Solutions/Corvus.Leasing.Abstractions/Corvus/Leasing/LeaseProviderExtensions.cs:538-569 | the same for a set: every lease is released, and the first release failure replaces the action's result |

## Left out

- Base64url encoding and decoding of tokens: the tokens are modelled as their decoded
  text.
- `Environment.NewLine`: it is taken to be "\n".
- Double precision of `TotalSeconds` and `TotalMilliseconds`: durations are exact tick
  counts. `Math.Round` is therefore exact banker's rounding of the tick ratio.
- Overflow of `DateTimeOffset` arithmetic: `Expires` is not clipped, and
  `UtcNow - LastAcquired` and the `(int)` cast of the Cosmos DB `ttl` do not throw.
- The current culture: `long.ToString()`, `double.ToString()` and `long.Parse` name no
  culture. The model fixes one that writes '-', ASCII digits and '.', so a culture with
  another decimal separator or sign is not covered.
- `ToLowerInvariant` beyond ASCII: other characters are kept as they are.
- JSON parsing and formatting of Cosmos DB documents: documents are records, and a reply
  that is not a document counts as an unreadable reply.
- `CosmosDbLease`, with `ToLeaseToken` and `FromLeaseToken` of the Cosmos DB provider:
  `CosmosDbLease.cs` is not part of this model. Its lease is taken to behave like an
  Azure lease: unstamped at construction, with a settable `LastAcquired`.
- The retry driver `Retriable.RetryAsync` and its strategies: this model has one attempt
  plus the strategy and policy it is given. `AggregatePolicy` is assumed to allow a retry
  only when every member policy does. The retry loops around single blob calls are
  folded into the blob service's replies.
- Concurrency, in four places:
  - The background renewal runs beside the action. Here its wake-ups are a finite
    sequence performed in order before the action's outcome is taken.
  - The real loop ends only on cancellation.
  - `Task.WhenAll` runs its tasks one after another.
  - `ConcurrentDictionary` races and thread safety are not modelled.
- Time and identity:
  - The clock is a parameter; `UtcNow` and `Now` are one instant.
  - `Guid.NewGuid()` values are parameters.
  - `WaitOne` pauses are not timed.
- The action of `ExecuteWithMutexAsync`: it is given as its outcome. Only the
  `Action`/`Func` overloads' shared behaviour is modelled, and the cancellation token is
  not passed to the action.
- Logging, dependency injection, options classes, `DefaultLeaseDuration` as a property:
  the constant 59 seconds stands for it.
- The `ProvideName` of the name provider: it is an opaque function.
- Null checks of constructor arguments (providers, policies, loggers): these are
  non-null types here.
- The `Released` setter: it is only set by `Lease.ReleaseAsync`.
- `new LeasePolicy { … }`: modelled as construction with a null name (which draws a
  GUID) followed by the three setters.
- CosmosLeases.ReleasedMeansNotOwned: excludes a request failed with a bare 404, which
  the provider takes as "already released" whatever the store holds.
- LeaseProviderExtensions.RenewalLoopAll: states the stamps only after the last
  wake-up, with no stamp stated per wake-up.
