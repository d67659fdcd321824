/** `LeaseSet`: a fixed collection of leases released or extended together. Both
    operations start the call for every lease and then wait for all of them
    (`Task.WhenAll`); awaiting such a task rethrows the failure of the first lease, in
    order, that failed. The calls are modelled one after the other, each with its own
    environment. */
module LeaseSets {
  import opened Wrappers
  import opened Errors
  import opened Leasing

  /** What awaiting `Task.WhenAll` reports: the first failure in order, or success. */
  function FirstFailure(outcomes: seq<Outcome<Error>>): (r: Outcome<Error>)
    ensures r.Pass? <==> forall i :: 0 <= i < |outcomes| ==> outcomes[i].Pass?
    ensures r.Fail? ==> exists i :: 0 <= i < |outcomes| && outcomes[i] == r
                                    && forall j :: 0 <= j < i ==> outcomes[j].Pass?
  {
    if |outcomes| == 0 then Pass
    else if outcomes[0].Fail? then outcomes[0]
    else
      var rest := FirstFailure(outcomes[1..]);
      assert forall i :: 1 <= i < |outcomes| ==> outcomes[i] == outcomes[1..][i - 1];
      if rest.Fail? then
        var k :| 0 <= k < |outcomes[1..]| && outcomes[1..][k] == rest && forall j :: 0 <= j < k ==> outcomes[1..][j].Pass?;
        assert outcomes[k + 1] == rest;
        rest
      else rest
  }

  /** Appending a success does not change the verdict, and appending a failure to an
      all-successful prefix makes it the verdict. */
  lemma {:induction false} FirstFailureAppend(outcomes: seq<Outcome<Error>>, o: Outcome<Error>)
    ensures FirstFailure(outcomes + [o]) == if FirstFailure(outcomes).Fail? then FirstFailure(outcomes) else o
    decreases |outcomes|
  {
    if |outcomes| > 0 {
      assert (outcomes + [o])[1..] == outcomes[1..] + [o];
      FirstFailureAppend(outcomes[1..], o);
    }
  }

  /** The lease at `k` does not appear again before position `n`. */
  predicate NotRepeatedBefore(leases: seq<Lease>, k: int, n: int)
    requires 0 <= k < |leases| && n <= |leases|
  {
    forall j :: k < j < n ==> leases[j] != leases[k]
  }

  /** `i` is the last position at which its lease appears. */
  predicate LastOccurrence(leases: seq<Lease>, i: int)
    requires 0 <= i < |leases|
  {
    forall j :: i < j < |leases| ==> leases[j] != leases[i]
  }

  /** The leases, and every object their providers change. */
  ghost function ReprOf(leases: seq<Lease>): set<object>
  {
    (set k | 0 <= k < |leases| :: leases[k] as object)
    + (set k, o | 0 <= k < |leases| && o in leases[k].provider.Footprint() :: o)
  }

  /** Leases of one provider: beyond the leases themselves, only that provider's
      objects are involved. */
  lemma ReprOfOneProvider(leases: seq<Lease>, p: ProviderRef)
    requires forall k :: 0 <= k < |leases| ==> leases[k].provider == p
    ensures ReprOf(leases) <= (set k | 0 <= k < |leases| :: leases[k] as object) + p.Footprint()
  {
  }

  class LeaseSet {
    /** `Leases`. */
    const leases: seq<Lease>

    /** The leases and every object their providers change. */
    ghost const Repr: set<object>

    constructor (leases: seq<Lease>)
      ensures this.leases == leases && Repr == ReprOf(leases) && Covered()
    {
      this.leases := leases;
      Repr := ReprOf(leases);
    }

    /** `Repr` holds every lease and everything its provider changes. */
    ghost predicate Covered()
    {
      forall k :: 0 <= k < |leases| ==> leases[k] in Repr && leases[k].provider.Footprint() <= Repr
    }

    ghost predicate Valid()
      reads Repr
    {
      Covered() && forall k :: 0 <= k < |leases| ==> leases[k].provider.Valid()
    }

    /** No lease of the set has changed its id or its `Released` flag. */
    twostate predicate IdentitiesKept()
      requires Covered()
      reads Repr
    {
      forall k :: 0 <= k < |leases| ==> leases[k].id == old(leases[k].id) && leases[k].released == old(leases[k].released)
    }

    /** Every lease carries the time of its own environment (the last one, for a lease
        that appears more than once). */
    predicate StampedAt(envs: nat -> Env)
      requires Covered()
      reads Repr
    {
      forall k :: 0 <= k < |leases| && LastOccurrence(leases, k) ==> leases[k].lastAcquired == Some(envs(k).now)
    }

    /** The release of the lease at position `i`: every lease of the set, that one
        included, is afterwards released or untouched. */
    method ReleaseOne(i: nat, env: Env) returns (o: Outcome<Error>)
      requires Valid() && i < |leases|
      modifies leases[i], leases[i].provider.Footprint()
      ensures Valid()
      ensures o.Pass? ==> !leases[i].HasLease(env.now)
      ensures forall k :: 0 <= k < |leases| ==>
                leases[k].id == old(leases[k].id) && leases[k].policy.duration == old(leases[k].policy.duration)
      ensures forall k :: 0 <= k < |leases| ==>
                leases[k].released
                || (leases[k].lastAcquired == old(leases[k].lastAcquired) && leases[k].released == old(leases[k].released))
    {
      var lease := leases[i];
      o := lease.ReleaseAsync(env);
      forall k | 0 <= k < |leases| && leases[k] != lease
        ensures leases[k].lastAcquired == old(leases[k].lastAcquired) && leases[k].released == old(leases[k].released)
        ensures leases[k].policy.duration == old(leases[k].policy.duration)
      {
        assert leases[k] !in lease.provider.Footprint() && leases[k].policy !in lease.provider.Footprint();
      }
    }

    /** `ReleaseAllAsync`: every lease's `ReleaseAsync` runs; the verdict is the first
        failure. A lease whose release succeeded is not held afterwards, and every lease
        is afterwards released or untouched. */
    method ReleaseAll(envs: nat -> Env) returns (outcomes: seq<Outcome<Error>>, r: Outcome<Error>)
      requires Valid()
      modifies Repr
      ensures Valid()
      ensures |outcomes| == |leases| && r == FirstFailure(outcomes)
      ensures forall i :: 0 <= i < |leases| && outcomes[i].Pass? ==> !leases[i].HasLease(envs(i).now)
      ensures forall k :: 0 <= k < |leases| ==> leases[k].id == old(leases[k].id)
      ensures forall k :: 0 <= k < |leases| ==>
                leases[k].released
                || (leases[k].lastAcquired == old(leases[k].lastAcquired) && leases[k].released == old(leases[k].released))
    {
      outcomes := [];
      var i := 0;
      while i < |leases|
        invariant 0 <= i <= |leases| && |outcomes| == i
        invariant Valid()
        invariant forall k :: 0 <= k < i && outcomes[k].Pass? ==> !leases[k].HasLease(envs(k).now)
        invariant forall k :: 0 <= k < |leases| ==> leases[k].id == old(leases[k].id)
        invariant forall k :: 0 <= k < |leases| ==>
                    leases[k].released
                    || (leases[k].lastAcquired == old(leases[k].lastAcquired) && leases[k].released == old(leases[k].released))
      {
        var o := ReleaseOne(i, envs(i));
        outcomes := outcomes + [o];
        i := i + 1;
      }
      r := FirstFailure(outcomes);
    }

    /** The extension of the lease at position `i`, and what it leaves alone. */
    method ExtendOne(i: nat, env: Env) returns (o: Outcome<Error>)
      requires Valid() && i < |leases|
      modifies leases[i], leases[i].provider.Footprint()
      ensures Valid()
      ensures o.Pass? ==> leases[i].lastAcquired == Some(env.now)
      ensures IdentitiesKept()
      ensures forall k :: 0 <= k < |leases| && leases[k] != leases[i] ==> leases[k].lastAcquired == old(leases[k].lastAcquired)
    {
      var lease := leases[i];
      o := lease.ExtendAsync(env);
      forall k | 0 <= k < |leases| && leases[k] != lease
        ensures leases[k].lastAcquired == old(leases[k].lastAcquired)
      {
        assert leases[k] !in lease.provider.Footprint();
      }
    }

    /** `ExtendAllAsync`: every lease's `ExtendAsync` runs; the verdict is the first
        failure. A lease extended successfully, and not again later in the set, carries
        the time of its extension. */
    method ExtendAll(envs: nat -> Env) returns (outcomes: seq<Outcome<Error>>, r: Outcome<Error>)
      requires Valid()
      modifies Repr
      ensures Valid()
      ensures |outcomes| == |leases| && r == FirstFailure(outcomes)
      ensures forall i :: 0 <= i < |leases| && outcomes[i].Pass? && LastOccurrence(leases, i)
                ==> leases[i].lastAcquired == Some(envs(i).now)
      ensures r.Pass? ==> StampedAt(envs)
      ensures IdentitiesKept()
    {
      outcomes := [];
      var i := 0;
      while i < |leases|
        invariant 0 <= i <= |leases| && |outcomes| == i
        invariant Valid()
        invariant IdentitiesKept()
        invariant forall k :: 0 <= k < i && outcomes[k].Pass? && NotRepeatedBefore(leases, k, i)
                    ==> leases[k].lastAcquired == Some(envs(k).now)
      {
        var o := ExtendOne(i, envs(i));
        outcomes := outcomes + [o];
        i := i + 1;
      }
      r := FirstFailure(outcomes);
      forall k | 0 <= k < |leases| && outcomes[k].Pass? && LastOccurrence(leases, k)
        ensures leases[k].lastAcquired == Some(envs(k).now)
      {
        assert NotRepeatedBefore(leases, k, |leases|);
      }
      assert r.Pass? ==> StampedAt(envs);
    }
  }
}
