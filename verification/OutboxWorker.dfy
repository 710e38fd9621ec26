/** The outbox worker process: it runs the dispatcher while it keeps the lease. */
module OutboxWorker {
  import opened Wrappers
  import opened RuntimeLease

  /** One worker whose steps meet no interference: the body of a timer step. */
  class Worker {
    const ownerId: string
    const leaseKey: string
    const ttlMs: nat
    const leases: RuntimeLeaseService
    var dispatcherApp: bool            // a dispatcher application is running
    var stopping: bool
    var currentFence: Option<nat>

    constructor (ownerId: string, leaseKey: string, ttlMs: nat, leases: RuntimeLeaseService)
      ensures this.ownerId == ownerId && this.leaseKey == leaseKey && this.ttlMs == ttlMs && this.leases == leases
      ensures !dispatcherApp && !stopping && currentFence == None
    {
      this.ownerId, this.leaseKey, this.ttlMs, this.leases := ownerId, leaseKey, ttlMs, leases;
      dispatcherApp, stopping, currentFence := false, false, None;
    }

    /** A release that fails after a failed boot is swallowed. */
    method BecomeLeader(grant: Grant, now: nat, bootFails: bool, releaseFails: bool)
      modifies this`dispatcherApp, this`currentFence, leases`rows
      ensures old(dispatcherApp) ==> dispatcherApp && currentFence == old(currentFence) && leases.rows == old(leases.rows)
      ensures !old(dispatcherApp) && !bootFails ==>
                dispatcherApp && currentFence == Some(grant.fencingToken) && leases.rows == old(leases.rows)
      ensures !old(dispatcherApp) && bootFails ==>
                && !dispatcherApp && currentFence == None
                && leases.rows - {leaseKey} == old(leases.rows) - {leaseKey}
                && leases.rows.Keys == old(leases.rows).Keys
                && (leaseKey in leases.rows ==>
                      leases.rows[leaseKey] ==
                        (if old(leases.rows)[leaseKey].ownerId == ownerId && !releaseFails
                         then Extended(old(leases.rows)[leaseKey], now, 0)
                         else old(leases.rows)[leaseKey]))
    {
      if dispatcherApp { return; }
      if bootFails {
        currentFence := None;
        if !releaseFails {
          var _ := leases.Release(leaseKey, ownerId, now);
        }
      } else {
        dispatcherApp := true;
        currentFence := Some(grant.fencingToken);
      }
    }

    method BecomeFollower(closeFails: bool)
      modifies this`dispatcherApp, this`currentFence
      ensures old(dispatcherApp) && !closeFails ==> !dispatcherApp && currentFence == None
      ensures !old(dispatcherApp) || closeFails ==> dispatcherApp == old(dispatcherApp) && currentFence == old(currentFence)
    {
      if !dispatcherApp || closeFails { return; }
      dispatcherApp := false;
      currentFence := None;
    }

    method Step(now: nat, bootFails: bool, releaseFails: bool, closeFails: bool)
      modifies this`dispatcherApp, this`currentFence, leases`rows
      ensures old(stopping) ==>
                dispatcherApp == old(dispatcherApp) && currentFence == old(currentFence) && leases.rows == old(leases.rows)
      // a dispatcher that runs after the step owns the row for a full time to live, under
      // the row's own token; the one exception is a lost dispatcher that would not close
      ensures !old(stopping) && dispatcherApp ==>
                || (leaseKey in leases.rows && currentFence.Some?
                    && leases.rows[leaseKey] == LeaseRow(ownerId, currentFence.value, now + ttlMs, now))
                || (closeFails && old(dispatcherApp) && leases.rows == old(leases.rows))
      // and it runs exactly when the lease was there to take or keep
      ensures !old(stopping) && !old(dispatcherApp) ==>
                (dispatcherApp <==> !bootFails && AcquireMatches(RowOrFresh(old(leases.rows), leaseKey), ownerId, now))
      ensures !old(stopping) && old(dispatcherApp) ==>
                (dispatcherApp <==>
                   closeFails || (leaseKey in old(leases.rows) && RenewMatches(old(leases.rows)[leaseKey], ownerId, now)))
      // a dispatcher that does not boot gives a taken lease back at once
      ensures !old(stopping) && !old(dispatcherApp) && bootFails && !releaseFails
              && AcquireMatches(RowOrFresh(old(leases.rows), leaseKey), ownerId, now) ==>
                && leaseKey in leases.rows && currentFence == None
                && leases.rows[leaseKey] == LeaseRow(ownerId, RowOrFresh(old(leases.rows), leaseKey).fencingToken + 1, now, now)
      // or leaves it to run out when the release fails too
      ensures !old(stopping) && !old(dispatcherApp) && bootFails && releaseFails
              && AcquireMatches(RowOrFresh(old(leases.rows), leaseKey), ownerId, now) ==>
                && leaseKey in leases.rows && currentFence == None
                && leases.rows[leaseKey]
                   == LeaseRow(ownerId, RowOrFresh(old(leases.rows), leaseKey).fencingToken + 1, now + ttlMs, now)
      // a follower that misses the lease changes nothing, but for creating an absent row
      ensures !old(stopping) && !old(dispatcherApp) && !AcquireMatches(RowOrFresh(old(leases.rows), leaseKey), ownerId, now) ==>
                && currentFence == old(currentFence)
                && leaseKey in leases.rows && leases.rows[leaseKey] == RowOrFresh(old(leases.rows), leaseKey)
      // and a dispatcher that lost its lease leaves the row as it is
      ensures !old(stopping) && old(dispatcherApp) && !dispatcherApp ==> leases.rows == old(leases.rows) && currentFence == None
      ensures leases.rows - {leaseKey} == old(leases.rows) - {leaseKey}
    {
      if stopping { return; }
      var grant;
      if dispatcherApp {
        grant := leases.Renew(leaseKey, ownerId, ttlMs, now);
      } else {
        grant := leases.TryAcquire(leaseKey, ownerId, ttlMs, now);
      }
      if grant.Some? {
        currentFence := Some(grant.value.fencingToken);
        if !dispatcherApp {
          BecomeLeader(grant.value, now, bootFails, releaseFails);
        }
        return;
      }
      if dispatcherApp {
        BecomeFollower(closeFails);
      }
    }
  }
}
