/** `LeaseProviderExtensions`: running an action under a lease (mutex semantics), the
    auto-renewing acquisition behind it, and the helper that turns a failed acquisition
    into `false`.

    One ATTEMPT of the retry loop is modelled: acquire, renew in the background while
    the action runs, cancel the renewals, release. The background loop runs
    concurrently with the action; here the wake-ups that happen while the action runs
    are given as a sequence and performed in order before the action's outcome is
    taken. The retry driver (`Retriable.RetryAsync`) is not part of this model; what it
    is given (strategy and policy) is. */
module LeaseProviderExtensions {
  import opened Wrappers
  import opened Time
  import opened Errors
  import opened LeasePolicies
  import opened RetryPolicies
  import opened Leasing
  import opened LeaseSets

  // ---------------------------------------------------------------------------
  // DoNotThrowIfLeaseNotAcquired

  /** The failures `DoNotThrowIfLeaseNotAcquired` absorbs: a failed acquisition, or an
      `AggregateException` whose LAST inner exception is one. */
  predicate NotAcquired(e: Error)
  {
    e.LeaseAcquisitionUnsuccessful?
    || (e.Aggregate? && |e.innerErrors| > 0 && e.innerErrors[|e.innerErrors| - 1].LeaseAcquisitionUnsuccessful?)
  }

  /** `DoNotThrowIfLeaseNotAcquired(Task)`: `true` on success, `false` when the lease was
      not acquired, and any other failure rethrown unchanged. */
  function DoNotThrowIfLeaseNotAcquired(o: Outcome<Error>): (r: Result<bool, Error>)
    ensures r == Success(true) <==> o.Pass?
    ensures r == Success(false) <==> o.Fail? && NotAcquired(o.error)
    ensures r.Failure? <==> o.Fail? && !NotAcquired(o.error)
    ensures r.Failure? ==> r.error == o.error
  {
    match o
    case Pass => Success(true)
    case Fail(e) => if NotAcquired(e) then Success(false) else Failure(e)
  }

  /** `DoNotThrowIfLeaseNotAcquired<T>(Task<T>)`: the `Task`'s value paired with `true`, or
      `default(T)` paired with `false` when the lease was not acquired. */
  function DoNotThrowIfLeaseNotAcquiredValue<T>(o: Result<T, Error>, defaultValue: T): (r: Result<(bool, T), Error>)
    ensures o.Success? ==> r == Success((true, o.value))
    ensures o.Failure? && NotAcquired(o.error) ==> r == Success((false, defaultValue))
    ensures r.Failure? <==> o.Failure? && !NotAcquired(o.error)
    ensures r.Failure? ==> r.error == o.error
  {
    match o
    case Success(v) => Success((true, v))
    case Failure(e) => if NotAcquired(e) then Success((false, defaultValue)) else Failure(e)
  }

  /** Only the last inner exception of an aggregate is looked at: a failed acquisition
      followed by any other failure is rethrown, and an empty aggregate is rethrown. */
  lemma OnlyLastInnerErrorCounts(policy: LeasePolicy, other: Error)
    requires !other.LeaseAcquisitionUnsuccessful?
    ensures DoNotThrowIfLeaseNotAcquired(Fail(Aggregate([LeaseAcquisitionUnsuccessful(policy, None), other])))
            == Failure(Aggregate([LeaseAcquisitionUnsuccessful(policy, None), other]))
    ensures DoNotThrowIfLeaseNotAcquired(Fail(Aggregate([other, LeaseAcquisitionUnsuccessful(policy, None)]))) == Success(false)
    ensures DoNotThrowIfLeaseNotAcquired(Fail(Aggregate([]))) == Failure(Aggregate([]))
  {
  }

  /** The two forms agree: the flag of the value form is the result of the plain
      form, and both rethrow the same failures. */
  lemma {:induction false} ValueFormAgrees<T>(o: Result<T, Error>, defaultValue: T)
    ensures var plain := DoNotThrowIfLeaseNotAcquired(if o.Success? then Pass else Fail(o.error));
            var valued := DoNotThrowIfLeaseNotAcquiredValue(o, defaultValue);
            (plain.Success? <==> valued.Success?)
            && (plain.Success? ==> plain.value == valued.value.0)
            && (plain.Failure? ==> plain.error == valued.error)
  {
  }

  // ---------------------------------------------------------------------------
  // Retry settings

  /** `Int32.MaxValue`. */
  const IntMax: int := 0x7FFF_FFFF

  /** `Linear(period, maxTries)` of the retry library: a fixed delay between tries. */
  datatype RetryStrategy = Linear(periodSeconds: int, maxTries: int)

  /** The retry policies the extensions choose from, and any caller-supplied one. */
  datatype RetryPolicy =
    | RetryUntilLeaseAcquiredPolicy
    | DoNotRetryOnLeaseAcquisitionUnsuccessfulPolicy
    | CustomPolicy(canRetry: Error -> bool)
  {
    function CanRetry(e: Error): bool
    {
      match this
      case RetryUntilLeaseAcquiredPolicy => RetryUntilLeaseAcquired(e)
      case DoNotRetryOnLeaseAcquisitionUnsuccessfulPolicy => DoNotRetryOnLeaseAcquisitionUnsuccessful(e)
      case CustomPolicy(f) => f(e)
    }
  }

  /** `GetDefaultRetryStrategy`: a linear strategy whose delay is a tenth of the lease
      duration (the providers' default when none is given), rounded to the nearest
      second and never less than one second, with `Int32.MaxValue` tries. */
  function DefaultRetryStrategy(duration: Option<Span>): (s: RetryStrategy)
    ensures s.periodSeconds >= 1 && s.maxTries == IntMax
  {
    Linear(Max(1, RoundHalfEven(duration.GetOr(DefaultLeaseDuration), 10 * TicksPerSecond)), IntMax)
  }

  function Max(a: int, b: int): int { if a < b then b else a }

  /** The default delay is the whole number of seconds nearest to a tenth of the
      duration, once that is positive. */
  lemma DefaultRetryDelayIsATenth(d: Span, k: int)
    requires RoundHalfEven(d, 100_000_000) >= 1
    ensures var p := DefaultRetryStrategy(Some(d)).periodSeconds;
            2 * Abs(d - 100_000_000 * p) <= 100_000_000 && Abs(d - 100_000_000 * p) <= Abs(d - 100_000_000 * k)
  {
    RoundHalfEvenNearest(d, 100_000_000, k);
  }

  /** Which overload family an extension call belongs to, with the arguments it was
      given explicitly (absent means "not a parameter of that overload"). */
  datatype Overload =
      /** `ExecuteWithMutexAsync` and `AcquireAutorenewingLeaseAsync`. */
    | Mutex(strategy: Option<RetryStrategy>, policy: Option<RetryPolicy>)
      /** `ExecuteWithMutexTryOnceAsync`. */
    | MutexTryOnce(strategy: Option<RetryStrategy>)

  /** The strategy and policy an overload hands to the retry driver: a strategy not
      given is the default one for the duration; `ExecuteWithMutexAsync` retries until
      the lease is acquired unless given a policy, the try-once family never retries a
      failed acquisition. */
  function RetrySettings(o: Overload, duration: Option<Span>): (s: (RetryStrategy, RetryPolicy))
    ensures o.strategy.Some? ==> s.0 == o.strategy.value
    ensures o.strategy.None? ==> s.0 == DefaultRetryStrategy(duration)
    ensures o.Mutex? && o.policy.Some? ==> s.1 == o.policy.value
  {
    var strategy := o.strategy.GetOr(DefaultRetryStrategy(duration));
    match o
    case Mutex(_, policy) => (strategy, policy.GetOr(RetryUntilLeaseAcquiredPolicy))
    case MutexTryOnce(_) => (strategy, DoNotRetryOnLeaseAcquisitionUnsuccessfulPolicy)
  }

  /** A try-once call gives up after a failed acquisition; a default mutex call retries
      exactly the failed acquisitions. */
  lemma TryOnceGivesUp(strategy: Option<RetryStrategy>, duration: Option<Span>, e: Error)
    ensures RetrySettings(MutexTryOnce(strategy), duration).1.CanRetry(e) <==> !e.LeaseAcquisitionUnsuccessful?
    ensures RetrySettings(Mutex(strategy, None), duration).1.CanRetry(e) <==> e.LeaseAcquisitionUnsuccessful?
  {
  }

  // ---------------------------------------------------------------------------
  // Renewal

  /** `GetRenewalPeriod`, in whole seconds: a third of the policy's duration (the
      default when it has none), rounded to the nearest second, ties to even. */
  function RenewalPeriod(duration: Option<Span>): int
  {
    RoundHalfEven(duration.GetOr(DefaultLeaseDuration), 3 * TicksPerSecond)
  }

  /** `WaitHandle.WaitOne(TimeSpan)` accepts a whole number of seconds only when its
      milliseconds fit in `Int32` and are not negative (-1 ms, "infinite", is not a
      whole number of seconds); otherwise it throws and the background loop ends. */
  predicate WaitAccepted(seconds: int)
  {
    0 <= seconds && seconds * 1000 <= IntMax
  }

  /** The default policy renews every 20 seconds and retries every 6. */
  lemma DefaultPeriods()
    ensures RenewalPeriod(None) == 20
    ensures DefaultRetryStrategy(None).periodSeconds == 6
  {
  }

  /** A renewal period of zero (the loop then renews without pausing) comes exactly from
      durations of at most a second and a half either way. */
  lemma RenewalPeriodZeroIff(d: Span)
    ensures RenewalPeriod(Some(d)) == 0 <==> -15_000_000 <= d <= 15_000_000
  {
  }

  /** A lease longer than three quarters of a second is renewed before it would expire:
      the period is shorter than the duration. */
  lemma RenewedBeforeExpiry(d: Span)
    requires d > 7_500_000
    ensures RenewalPeriod(Some(d)) * TicksPerSecond < d
  {
    RoundHalfEvenNearest(d, 30_000_000, 0);
  }

  /** The renewal loop can wait only for durations from -1.5 s up to (not including)
      2147483.5 periods of three seconds; any other duration ends the loop at its first
      wait, so the lease is never renewed. */
  lemma RenewalWaitAcceptedIff(d: Span)
    ensures WaitAccepted(RenewalPeriod(Some(d))) <==> -15_000_000 <= d < 64_424_505_000_000
  {
  }

  /** A cancellation token and its source, as one object. */
  class CancellationSource {
    var cancelled: bool

    constructor ()
      ensures !cancelled
    {
      cancelled := false;
    }

    method Cancel()
      modifies this
      ensures cancelled
    {
      cancelled := true;
    }
  }

  /** The `LastAcquired` a lease has after a run of renewals: the time of the last one
      that succeeded, or what it had before when none did. */
  function LastRenewal(initial: Option<Timestamp>, wakes: seq<Env>, outcomes: seq<Outcome<Error>>): (r: Option<Timestamp>)
    requires |outcomes| <= |wakes|
    ensures (forall i :: 0 <= i < |outcomes| ==> outcomes[i].Fail?) ==> r == initial
    ensures r != initial ==> exists i :: 0 <= i < |outcomes| && outcomes[i].Pass? && r == Some(wakes[i].now)
    decreases |outcomes|
  {
    if |outcomes| == 0 then initial
    else if outcomes[|outcomes| - 1].Pass? then Some(wakes[|outcomes| - 1].now)
    else LastRenewal(initial, wakes, outcomes[..|outcomes| - 1])
  }

  /** The background loop of `StartRenewalBackgroundTask` for one lease, over the
      wake-ups that happen before the token is cancelled: each one calls the provider's
      `ExtendAsync` and ignores its failure. Nothing is renewed when the token is already
      cancelled or the period is one `WaitOne` refuses. */
  method RenewalLoop(lease: Lease, renewEvery: int, token: CancellationSource, wakes: seq<Env>)
    returns (outcomes: seq<Outcome<Error>>)
    requires lease.provider.Valid()
    modifies lease, lease.provider.Footprint()
    ensures lease.provider.Valid()
    ensures |outcomes| == if token.cancelled || !WaitAccepted(renewEvery) then 0 else |wakes|
    ensures lease.lastAcquired == LastRenewal(old(lease.lastAcquired), wakes, outcomes)
    ensures lease.id == old(lease.id) && lease.released == old(lease.released)
  {
    outcomes := [];
    var i := 0;
    while i < |wakes| && !token.cancelled
      invariant 0 <= i <= |wakes| && |outcomes| == i
      invariant lease.provider.Valid()
      invariant i > 0 ==> WaitAccepted(renewEvery)
      invariant token.cancelled ==> i == 0
      invariant lease.lastAcquired == LastRenewal(old(lease.lastAcquired), wakes, outcomes)
      invariant lease.id == old(lease.id) && lease.released == old(lease.released)
    {
      if !WaitAccepted(renewEvery) {
        break;
      }
      var o := lease.provider.Extend(lease, wakes[i]);
      assert (outcomes + [o])[..i] == outcomes;
      outcomes := outcomes + [o];
      i := i + 1;
    }
  }

  /** The lease-set form of the background loop: each wake-up runs `ExtendAllAsync` and
      ignores its failure. After a wake-up whose extensions all succeeded, every lease
      of the set carries the time of that wake-up. */
  method RenewalLoopAll(leases: LeaseSet, renewEvery: int, token: CancellationSource, wakes: seq<nat -> Env>)
    returns (verdicts: seq<Outcome<Error>>)
    requires leases.Valid()
    modifies leases.Repr
    ensures leases.Valid()
    ensures |verdicts| == if old(token.cancelled) || !WaitAccepted(renewEvery) then 0 else |wakes|
    ensures |verdicts| > 0 && verdicts[|verdicts| - 1].Pass? ==> leases.StampedAt(wakes[|verdicts| - 1])
    ensures leases.IdentitiesKept()
  {
    verdicts := [];
    var i := 0;
    // The token is cancelled only after these wake-ups, so every test reads this value.
    var cancelled := token.cancelled;
    while i < |wakes| && !cancelled
      invariant 0 <= i <= |wakes| && |verdicts| == i
      invariant leases.Valid()
      invariant i > 0 ==> WaitAccepted(renewEvery)
      invariant cancelled == old(token.cancelled)
      invariant cancelled ==> i == 0
      invariant i > 0 && verdicts[i - 1].Pass? ==> leases.StampedAt(wakes[i - 1])
      invariant leases.IdentitiesKept()
    {
      if !WaitAccepted(renewEvery) {
        break;
      }
      var outcomes, v := leases.ExtendAll(wakes[i]);
      verdicts := verdicts + [v];
      i := i + 1;
    }
  }

  // ---------------------------------------------------------------------------
  // Acquisition with renewal

  /** `AcquireLeaseWithRenewalTask` for one name (one attempt of
      `AcquireAutorenewingLeaseAsync`): acquire with a policy holding the given name and
      actor and the duration or the default one, then renew every `RenewalPeriod` of
      that duration. */
  method AcquireLeaseWithRenewalTask(provider: ProviderRef, name: Option<string>, actorName: Option<string>,
                                     duration: Option<Span>, proposed: Option<string>, token: CancellationSource,
                                     env: Env, wakes: seq<Env>)
    returns (r: Result<Lease, Error>, renewals: seq<Outcome<Error>>)
    requires provider.Valid()
    modifies provider.Footprint()
    ensures provider.Valid()
    ensures r.Failure? ==> renewals == []
    ensures r.Success? ==> fresh(r.value) && r.value.provider == provider && r.value.id.Some? && !r.value.released
    ensures r.Success? ==> r.value.policy.name == name && r.value.policy.actorName == actorName
                           && r.value.policy.duration == Some(duration.GetOr(DefaultLeaseDuration))
    ensures r.Success? ==> |renewals| == if token.cancelled || !WaitAccepted(RenewalPeriod(Some(duration.GetOr(DefaultLeaseDuration))))
                                         then 0 else |wakes|
    ensures r.Success? ==> r.value.lastAcquired == LastRenewal(Some(env.now), wakes, renewals)
  {
    var d := duration.GetOr(DefaultLeaseDuration);
    var policy := NewPolicy(actorName, Some(d), name, env.freshId(0));
    r := provider.Acquire(policy, proposed, env.Shift(1, 0));
    renewals := [];
    if r.Success? {
      var lease := r.value;
      renewals := RenewalLoop(lease, RenewalPeriod(lease.policy.duration), token, wakes);
    }
  }

  /** A successful acquisition as an outcome. */
  function AttemptOutcome(a: Result<Lease, Error>): Outcome<Error>
  {
    if a.Success? then Pass else Fail(a.error)
  }

  function AttemptOutcomes(attempts: seq<Result<Lease, Error>>): (os: seq<Outcome<Error>>)
    ensures |os| == |attempts|
    ensures forall i :: 0 <= i < |attempts| ==> os[i] == AttemptOutcome(attempts[i])
  {
    seq(|attempts|, i requires 0 <= i < |attempts| => AttemptOutcome(attempts[i]))
  }

  function AcquiredLeases(attempts: seq<Result<Lease, Error>>): (ls: seq<Lease>)
    requires forall i :: 0 <= i < |attempts| ==> attempts[i].Success?
    ensures |ls| == |attempts| && forall i :: 0 <= i < |attempts| ==> ls[i] == attempts[i].value
  {
    seq(|attempts|, i requires 0 <= i < |attempts| => attempts[i].value)
  }

  /** The per-name acquisitions, made while `Task.WhenAll` enumerates the `Select`, in
      order and each with its own environment. Every successful one is a new lease
      stamped with the time of its environment. The in-memory `AcquireAsync` is not
      `async`: its refusal is thrown during the enumeration, so the names after it are
      never tried. The other providers' refusals are held in their tasks, and every
      name is tried. */
  method AcquireEach(provider: ProviderRef, names: seq<Option<string>>, actorName: Option<string>,
                     d: Span, proposed: Option<string>, envs: nat -> Env)
    returns (attempts: seq<Result<Lease, Error>>)
    requires provider.Valid()
    modifies provider.Footprint()
    ensures provider.Valid()
    ensures |attempts| <= |names|
    ensures !provider.InMemory? ==> |attempts| == |names|
    ensures |attempts| < |names| ==> |attempts| > 0 && attempts[|attempts| - 1].Failure?
    ensures provider.InMemory? ==> forall k :: 0 <= k < |attempts| - 1 ==> attempts[k].Success?
    ensures forall k :: 0 <= k < |attempts| && attempts[k].Success? ==>
              var lease := attempts[k].value;
              fresh(lease) && lease.provider == provider && lease.id.Some? && !lease.released
              && lease.policy.name == names[k] && lease.policy.actorName == actorName
              && lease.policy.duration == Some(d) && lease.lastAcquired == Some(envs(k).now)
  {
    attempts := [];
    var i := 0;
    var thrown := false;
    while i < |names| && !thrown
      invariant 0 <= i <= |names| && |attempts| == i
      invariant provider.Valid()
      invariant thrown ==> provider.InMemory? && i > 0 && attempts[i - 1].Failure?
      invariant provider.InMemory? && !thrown ==> forall k :: 0 <= k < i ==> attempts[k].Success?
      invariant provider.InMemory? ==> forall k :: 0 <= k < i - 1 ==> attempts[k].Success?
      invariant forall k :: 0 <= k < i && attempts[k].Success? ==>
                  var lease := attempts[k].value;
                  fresh(lease) && lease.provider == provider && lease.id.Some? && !lease.released
                  && lease.policy.name == names[k] && lease.policy.actorName == actorName
                  && lease.policy.duration == Some(d) && lease.lastAcquired == Some(envs(k).now)
    {
      var policy := NewPolicy(actorName, Some(d), names[i], envs(i).freshId(0));
      var a := provider.Acquire(policy, proposed, envs(i).Shift(1, 0));
      attempts := attempts + [a];
      i := i + 1;
      thrown := provider.InMemory? && a.Failure?;
    }
  }

  /** The set of the acquired leases, renewed every `RenewalPeriod` of their duration. */
  method RenewAcquired(provider: ProviderRef, leases: seq<Lease>, d: Span, token: CancellationSource,
                       wakes: seq<nat -> Env>)
    returns (set_: LeaseSet, renewals: seq<Outcome<Error>>)
    requires provider.Valid()
    requires forall k :: 0 <= k < |leases| ==> leases[k].provider == provider
    modifies provider.Footprint(), set k | 0 <= k < |leases| :: leases[k]
    ensures fresh(set_) && set_.leases == leases && set_.Valid()
    ensures set_.Repr <= (set k | 0 <= k < |leases| :: leases[k] as object) + provider.Footprint()
    ensures |renewals| == if old(token.cancelled) || !WaitAccepted(RenewalPeriod(Some(d))) then 0 else |wakes|
    ensures forall k :: 0 <= k < |leases| ==> leases[k].id == old(leases[k].id) && leases[k].released == old(leases[k].released)
  {
    set_ := new LeaseSet(leases);
    ReprOfOneProvider(leases, provider);
    assert set_.Valid();
    renewals := RenewalLoopAll(set_, RenewalPeriod(Some(d)), token, wakes);
  }

  /** `AcquireLeaseWithRenewalTask` for several names: the acquisitions of `AcquireEach`,
      with the same duration, actor and proposed id. The first failure, in order, is
      rethrown; the leases that were acquired are NOT released (the cleanup runs over a
      result array that is still empty) and stay held. An empty list of names fails
      with `IndexOutOfRangeException`. Otherwise every name was acquired and the set is
      renewed every `RenewalPeriod` of the duration. */
  method AcquireAllWithRenewalTask(provider: ProviderRef, names: seq<Option<string>>, actorName: Option<string>,
                                   duration: Option<Span>, proposed: Option<string>, token: CancellationSource,
                                   envs: nat -> Env, wakes: seq<nat -> Env>)
    returns (r: Result<LeaseSet, Error>, attempts: seq<Result<Lease, Error>>, renewals: seq<Outcome<Error>>)
    requires provider.Valid()
    modifies provider.Footprint()
    ensures provider.Valid()
    ensures |attempts| <= |names| && (!provider.InMemory? ==> |attempts| == |names|)
    ensures provider.InMemory? ==> forall i :: 0 <= i < |attempts| - 1 ==> attempts[i].Success?
    ensures FirstFailure(AttemptOutcomes(attempts)).Pass? ==> |attempts| == |names|
    ensures forall i :: 0 <= i < |attempts| && attempts[i].Success? ==>
              var lease := attempts[i].value;
              fresh(lease) && lease.provider == provider && lease.id.Some? && !lease.released
              && lease.policy.name == names[i] && lease.policy.actorName == actorName
              && lease.policy.duration == Some(duration.GetOr(DefaultLeaseDuration))
    ensures FirstFailure(AttemptOutcomes(attempts)).Fail? ==>
              r == Failure(FirstFailure(AttemptOutcomes(attempts)).error) && renewals == []
              && forall i :: 0 <= i < |attempts| && attempts[i].Success? ==>
                   attempts[i].value.lastAcquired == Some(envs(i).now) && !attempts[i].value.released
    ensures FirstFailure(AttemptOutcomes(attempts)).Pass? && |names| == 0 ==> r == Failure(IndexOutOfRange)
    ensures r.Success? <==> FirstFailure(AttemptOutcomes(attempts)).Pass? && |names| > 0
    ensures r.Success? ==> fresh(r.value) && r.value.leases == AcquiredLeases(attempts) && r.value.Valid()
                           && fresh(r.value.Repr - provider.Footprint())
    ensures r.Success? ==> |renewals| == if token.cancelled || !WaitAccepted(RenewalPeriod(Some(duration.GetOr(DefaultLeaseDuration))))
                                         then 0 else |wakes|
    ensures r.Failure? ==> renewals == []
  {
    var d := duration.GetOr(DefaultLeaseDuration);
    attempts := AcquireEach(provider, names, actorName, d, proposed, envs);
    renewals := [];
    var verdict := FirstFailure(AttemptOutcomes(attempts));
    if |attempts| < |names| {
      assert AttemptOutcomes(attempts)[|attempts| - 1].Fail?;
    }
    if verdict.Fail? {
      r := Failure(verdict.error);
    } else if |names| == 0 {
      r := Failure(IndexOutOfRange);
    } else {
      assert forall k :: 0 <= k < |attempts| ==> AttemptOutcomes(attempts)[k].Pass?;
      var set_;
      set_, renewals := RenewAcquired(provider, AcquiredLeases(attempts), d, token, wakes);
      r := Success(set_);
    }
  }

  // ---------------------------------------------------------------------------
  // Mutex

  /** One attempt of `ExecuteWithMutexAsync` (and of its try-once form, which differs
      only in its retry policy): acquire the lease with renewal, run the action (its
      outcome is `action`), cancel the token, release the lease. The token source is
      shared by every attempt of one call. When the acquisition fails nothing else
      happens. Otherwise the result is the action's unless the release fails, whose
      failure then replaces it. */
  method ExecuteWithMutexAttempt<T>(provider: ProviderRef, name: Option<string>, duration: Option<Span>,
                                    actorName: Option<string>, proposed: Option<string>, cts: CancellationSource,
                                    env: Env, wakes: seq<Env>, action: Result<T, Error>, releaseEnv: Env)
    returns (r: Result<T, Error>, acquired: Result<Lease, Error>, renewals: seq<Outcome<Error>>,
             release: Option<Outcome<Error>>)
    requires provider.Valid()
    modifies provider.Footprint(), cts
    ensures provider.Valid()
    ensures acquired.Failure? ==>
              r == Failure(acquired.error) && renewals == [] && release == None && cts.cancelled == old(cts.cancelled)
    ensures acquired.Success? ==>
              fresh(acquired.value) && acquired.value.provider == provider
              && acquired.value.policy.name == name && acquired.value.policy.actorName == actorName
              && acquired.value.policy.duration == Some(duration.GetOr(DefaultLeaseDuration))
              && cts.cancelled && release.Some?
              && r == (if release.value.Fail? then Failure(release.value.error) else action)
    ensures acquired.Success? && old(cts.cancelled) ==> renewals == []
    ensures acquired.Success? && release == Some(Pass) ==> !acquired.value.HasLease(releaseEnv.now)
  {
    acquired, renewals := AcquireLeaseWithRenewalTask(provider, name, actorName, duration, proposed, cts, env, wakes);
    if acquired.Failure? {
      r := Failure(acquired.error);
      release := None;
    } else {
      var lease := acquired.value;
      cts.Cancel();
      var o := lease.ReleaseAsync(releaseEnv);
      release := Some(o);
      r := if o.Fail? then Failure(o.error) else action;
    }
  }

  /** One attempt of the `LeasePolicy` overloads of `ExecuteWithMutexAsync`: the policy's
      name, duration and actor name are passed on, each of them null when the policy is
      null (so the actor name is then null, not the usual ""). The lease acquired has a
      policy with those values, the duration defaulted. */
  method ExecuteWithPolicyAttempt<T>(provider: ProviderRef, policy: LeasePolicy?, proposed: Option<string>,
                                     cts: CancellationSource, env: Env, wakes: seq<Env>, action: Result<T, Error>,
                                     releaseEnv: Env)
    returns (r: Result<T, Error>, acquired: Result<Lease, Error>, renewals: seq<Outcome<Error>>,
             release: Option<Outcome<Error>>)
    requires provider.Valid()
    modifies provider.Footprint(), cts
    ensures provider.Valid()
    ensures acquired.Success? && policy == null ==>
              acquired.value.policy.name == None && acquired.value.policy.actorName == None
              && acquired.value.policy.duration == Some(DefaultLeaseDuration)
    ensures acquired.Success? && policy != null ==>
              acquired.value.policy.name == old(policy.name) && acquired.value.policy.actorName == old(policy.actorName)
              && acquired.value.policy.duration == Some(old(policy.duration).GetOr(DefaultLeaseDuration))
    ensures acquired.Failure? ==> r == Failure(acquired.error) && release == None
    ensures acquired.Success? ==> release.Some? && r == (if release.value.Fail? then Failure(release.value.error) else action)
  {
    var name, duration, actorName := None, None, None;
    if policy != null {
      name, duration, actorName := policy.name, policy.duration, policy.actorName;
    }
    r, acquired, renewals, release :=
      ExecuteWithMutexAttempt(provider, name, duration, actorName, proposed, cts, env, wakes, action, releaseEnv);
  }

  /** One attempt of the several-name `ExecuteWithMutexAsync`: acquire the set with
      renewal, run the action, cancel the token, release every lease. A failed
      acquisition releases nothing, not even the leases that were granted; a failed
      release replaces the action's result with the first release failure. */
  method ExecuteWithMutexAllAttempt<T>(provider: ProviderRef, names: seq<Option<string>>, duration: Option<Span>,
                                       actorName: Option<string>, proposed: Option<string>, cts: CancellationSource,
                                       envs: nat -> Env, wakes: seq<nat -> Env>, action: Result<T, Error>,
                                       releaseEnvs: nat -> Env)
    returns (r: Result<T, Error>, acquired: Result<LeaseSet, Error>, release: Option<seq<Outcome<Error>>>)
    requires provider.Valid()
    modifies provider.Footprint(), cts
    ensures provider.Valid()
    ensures acquired.Failure? ==> r == Failure(acquired.error) && release == None && cts.cancelled == old(cts.cancelled)
    ensures |names| == 0 ==> r == Failure(IndexOutOfRange)
    ensures acquired.Success? ==>
              fresh(acquired.value) && |acquired.value.leases| == |names| && cts.cancelled && release.Some?
              && |release.value| == |names|
              && r == (if FirstFailure(release.value).Fail? then Failure(FirstFailure(release.value).error) else action)
    ensures acquired.Success? ==> forall i :: 0 <= i < |names| && release.value[i].Pass? ==>
              !acquired.value.leases[i].HasLease(releaseEnvs(i).now)
  {
    var attempts, renewals;
    acquired, attempts, renewals := AcquireAllWithRenewalTask(provider, names, actorName, duration, proposed, cts, envs, wakes);
    if acquired.Failure? {
      r := Failure(acquired.error);
      release := None;
    } else {
      var leases := acquired.value;
      cts.Cancel();
      var outcomes, verdict := leases.ReleaseAll(releaseEnvs);
      release := Some(outcomes);
      r := if verdict.Fail? then Failure(verdict.error) else action;
    }
  }
}
