/** The database lease that keeps automation runners apart, for as long as it
    lasts. */
module RunnerLease {
  import opened Wrappers

  const LEASE_MS := 120_000

  datatype Lease = Lease(owner: Option<string>, until: Option<int>)

  datatype Call =
    | Acquire(runner: string, now: int)
    | Renew(runner: string, now: int)
    | Release(runner: string, now: int)

  /** Whether the conditional update behind the call finds its row. */
  predicate Succeeds(lease: Lease, call: Call) {
    match call
    case Acquire(_, now) => lease.until.None? || lease.until.value <= now
    case Renew(runner, now) => lease.owner == Some(runner) && lease.until.Some? && lease.until.value > now
    case Release(runner, _) => lease.owner == Some(runner)
  }

  function After(lease: Lease, call: Call): Lease {
    if !Succeeds(lease, call) then lease
    else match call
      case Acquire(runner, now) => Lease(Some(runner), Some(now + LEASE_MS))
      case Renew(_, now) => lease.(until := Some(now + LEASE_MS))
      case Release(_, _) => Lease(None, None)
  }

  function AfterAll(lease: Lease, calls: seq<Call>): Lease
    decreases |calls|
  {
    if calls == [] then lease else AfterAll(After(lease, calls[0]), calls[1..])
  }

  class LeaseRow {
    var lease: Lease

    constructor ()
      ensures lease == Lease(None, None)
    {
      lease := Lease(None, None);
    }

    method Request(call: Call) returns (granted: bool)
      modifies this
      ensures lease == After(old(lease), call)
      ensures granted <==> Succeeds(old(lease), call)
    {
      granted := false;
      match call {
        case Acquire(runner, now) =>
          if lease.until.None? || lease.until.value <= now {
            lease, granted := Lease(Some(runner), Some(now + LEASE_MS)), true;
          }
        case Renew(runner, now) =>
          if lease.owner == Some(runner) && lease.until.Some? && lease.until.value > now {
            lease, granted := lease.(until := Some(now + LEASE_MS)), true;
          }
        case Release(runner, now) =>
          if lease.owner == Some(runner) {
            lease, granted := Lease(None, None), true;
          }
      }
    }
  }

  predicate HeldUntil(lease: Lease, runner: string, deadline: int) {
    lease.owner == Some(runner) && lease.until.Some? && lease.until.value >= deadline
  }

  lemma {:induction false} HeldThroughout(lease: Lease, runner: string, deadline: int, calls: seq<Call>)
    requires HeldUntil(lease, runner, deadline)
    requires forall i :: 0 <= i < |calls| ==> calls[i].now <= deadline - 1 && calls[i] != Release(runner, calls[i].now)
    requires forall i :: 0 <= i < |calls| ==> deadline - LEASE_MS <= calls[i].now
    ensures HeldUntil(AfterAll(lease, calls), runner, deadline)
    decreases |calls|
  {
    if calls != [] {
      var next := After(lease, calls[0]);
      assert HeldUntil(next, runner, deadline);
      forall i | 0 <= i < |calls[1..]|
        ensures calls[1..][i].now <= deadline - 1 && calls[1..][i] != Release(runner, calls[1..][i].now)
        ensures deadline - LEASE_MS <= calls[1..][i].now
      {
        assert calls[1..][i] == calls[i + 1];
      }
      HeldThroughout(next, runner, deadline, calls[1..]);
    }
  }

  /** A runner whose acquisition or renewal went through at time `now` is alone
      for the next LEASE_MS: until then no other runner's acquisition or renewal
      goes through, whatever calls come in between, unless it lets go itself. */
  lemma HolderIsAlone(lease: Lease, grant: Call, calls: seq<Call>, attempt: Call)
    requires !grant.Release? && Succeeds(lease, grant)
    requires forall i :: 0 <= i < |calls| ==>
               && grant.now <= calls[i].now < grant.now + LEASE_MS
               && calls[i] != Release(grant.runner, calls[i].now)
    requires !attempt.Release? && attempt.runner != grant.runner
    requires grant.now <= attempt.now < grant.now + LEASE_MS
    ensures !Succeeds(AfterAll(After(lease, grant), calls), attempt)
  {
    HeldThroughout(After(lease, grant), grant.runner, grant.now + LEASE_MS, calls);
  }

  /** A grant lasts two minutes: for so long only its runner renews or gives up the lease,
      and after that anyone acquires it but nobody renews it. */
  lemma GrantMeans(lease: Lease, grant: Call, attempt: Call)
    requires !grant.Release? && Succeeds(lease, grant)
    ensures var held := After(lease, grant);
            match attempt
            case Acquire(_, now) => Succeeds(held, attempt) <==> grant.now + 120_000 <= now
            case Renew(runner, now) => Succeeds(held, attempt) <==> runner == grant.runner && now < grant.now + 120_000
            case Release(runner, _) => Succeeds(held, attempt) <==> runner == grant.runner
  {
  }

  /** A lease that was given up is anyone's to acquire, and a refused call changes nothing. */
  lemma FreeMeans(lease: Lease, call: Call, attempt: Call)
    ensures !Succeeds(lease, call) ==> After(lease, call) == lease
    ensures call.Release? && Succeeds(lease, call) ==>
              (Succeeds(After(lease, call), attempt) <==> attempt.Acquire?)
  {
  }
}
