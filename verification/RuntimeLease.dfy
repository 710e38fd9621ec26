/** The runtime lease table: one row per lease key, taken over by expiry, kept by
    renewal, and numbered by a fencing token. The predicates and functions give the
    meaning of each SQL statement; RuntimeLeaseService runs them over a table. */
module RuntimeLease {
  import opened Wrappers

  const UNOWNED: string := "__unowned__"

  datatype LeaseRow = LeaseRow(ownerId: string, fencingToken: nat, expiresAt: nat, heartbeatAt: nat)

  datatype Grant = Grant(leaseKey: string, ownerId: string, fencingToken: nat, expiresAt: nat)

  const FRESH_ROW: LeaseRow := LeaseRow(UNOWNED, 0, 0, 0)

  function RowOrFresh(rows: map<string, LeaseRow>, leaseKey: string): LeaseRow {
    if leaseKey in rows then rows[leaseKey] else FRESH_ROW
  }

  predicate AcquireMatches(row: LeaseRow, ownerId: string, now: nat) {
    row.expiresAt <= now || row.ownerId == ownerId
  }

  function Acquired(row: LeaseRow, ownerId: string, now: nat, ttlMs: nat): LeaseRow {
    LeaseRow(ownerId, row.fencingToken + 1, now + ttlMs, now)
  }

  predicate RenewMatches(row: LeaseRow, ownerId: string, now: nat) {
    row.ownerId == ownerId && row.expiresAt >= now
  }

  /** What renewal (ttlMs > 0) and release (ttlMs == 0) both write. */
  function Extended(row: LeaseRow, now: nat, ttlMs: nat): LeaseRow {
    row.(expiresAt := now + ttlMs, heartbeatAt := now)
  }

  function GrantOf(leaseKey: string, row: LeaseRow): Grant {
    Grant(leaseKey, row.ownerId, row.fencingToken, row.expiresAt)
  }

  /** The service when no other client interleaves with its statements; the
      interleaved behaviour is in LeaseProtocol. */
  class RuntimeLeaseService {
    var rows: map<string, LeaseRow>

    constructor ()
      ensures rows == map[]
    {
      rows := map[];
    }

    method TryAcquire(leaseKey: string, ownerId: string, ttlMs: nat, now: nat) returns (grant: Option<Grant>)
      modifies this`rows
      ensures var row := RowOrFresh(old(rows), leaseKey); grant.Some? <==> row.expiresAt <= now || row.ownerId == ownerId
      ensures grant.Some? ==>
                grant.value == Grant(leaseKey, ownerId, RowOrFresh(old(rows), leaseKey).fencingToken + 1, now + ttlMs)
      ensures leaseKey in rows && rows - {leaseKey} == old(rows) - {leaseKey}
      ensures grant.Some? ==> GrantOf(leaseKey, rows[leaseKey]) == grant.value && rows[leaseKey].heartbeatAt == now
      ensures grant.None? ==> rows[leaseKey] == RowOrFresh(old(rows), leaseKey)
    {
      if leaseKey !in rows {
        rows := rows[leaseKey := FRESH_ROW];
      }
      var count := 0;
      if AcquireMatches(rows[leaseKey], ownerId, now) {
        rows := rows[leaseKey := Acquired(rows[leaseKey], ownerId, now, ttlMs)];
        count := 1;
      }
      if count != 1 {
        return None;
      }
      return Some(GrantOf(leaseKey, rows[leaseKey]));
    }

    method Renew(leaseKey: string, ownerId: string, ttlMs: nat, now: nat) returns (grant: Option<Grant>)
      modifies this`rows
      ensures grant.Some? <==>
                leaseKey in old(rows) && old(rows)[leaseKey].ownerId == ownerId && now <= old(rows)[leaseKey].expiresAt
      ensures grant.None? ==> rows == old(rows)
      ensures grant.Some? ==>
                && rows == old(rows)[leaseKey := LeaseRow(ownerId, old(rows)[leaseKey].fencingToken, now + ttlMs, now)]
                && grant.value == Grant(leaseKey, ownerId, old(rows)[leaseKey].fencingToken, now + ttlMs)
    {
      if leaseKey in rows && RenewMatches(rows[leaseKey], ownerId, now) {
        rows := rows[leaseKey := Extended(rows[leaseKey], now, ttlMs)];
        return Some(GrantOf(leaseKey, rows[leaseKey]));
      }
      return None;
    }

    method Release(leaseKey: string, ownerId: string, now: nat) returns (released: bool)
      modifies this`rows
      ensures released <==> leaseKey in old(rows) && old(rows)[leaseKey].ownerId == ownerId
      ensures !released ==> rows == old(rows)
      ensures released ==> rows == old(rows)[leaseKey := LeaseRow(ownerId, old(rows)[leaseKey].fencingToken, now, now)]
      // anybody whose clock has reached the release can take the lease over
      ensures released ==> forall other: string, later: nat | later >= now :: AcquireMatches(rows[leaseKey], other, later)
    {
      if leaseKey in rows && rows[leaseKey].ownerId == ownerId {
        rows := rows[leaseKey := Extended(rows[leaseKey], now, 0)];
        return true;
      }
      return false;
    }
  }
}
