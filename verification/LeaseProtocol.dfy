/** Any number of owners acquiring, renewing and releasing one lease row, statement by
    statement. A call reads its clock first; the create-if-absent, the guarded update
    and the read-back are separate statements, and other owners run between them.
    The calls of one owner follow each other. */
module LeaseProtocol {
  import opened Wrappers
  import opened RuntimeLease

  datatype Call = Acquire | Renew | Release

  datatype Pc =
    | Idle
    | Begun(call: Call, now: nat)
    | Ensured(now: nat)            // acquire, after the create-if-absent
    | Updated                      // one row was updated; the read-back is next

  /** `lastNow` is the clock value its latest call read; `held` are the grants returned
      since it last called release. */
  datatype Client = Client(pc: Pc, lastNow: nat, held: seq<Grant>)

  /** `log` names the owner of every successful acquire, in order. */
  datatype State = State(clock: nat, row: Option<LeaseRow>, clients: map<string, Client>, log: seq<string>)

  /** Every owner uses one time to live. */
  datatype Config = Config(leaseKey: string, ttl: map<string, nat>)

  datatype Event =
    | Tick(to: nat)
    | Begin(owner: string, call: Call)
    | Ensure(owner: string)
    | Update(owner: string)
    | ReadBack(owner: string)
    | Abort(owner: string)         // a statement threw, or the process went away

  ghost predicate Init(c: Config, s: State) {
    && UNOWNED !in c.ttl
    && s.clock == 0 && s.row == None && s.log == [] && s.clients.Keys == c.ttl.Keys
    && forall o | o in s.clients :: s.clients[o] == Client(Idle, 0, [])
  }

  ghost predicate Enabled(c: Config, s: State, e: Event) {
    match e
    case Tick(to) => to >= s.clock
    case Begin(o, _) => o in s.clients && s.clients[o].pc.Idle?
    case Ensure(o) => o in s.clients && s.clients[o].pc.Begun? && s.clients[o].pc.call.Acquire?
    case Update(o) =>
      && o in s.clients
      && (s.clients[o].pc.Ensured? || (s.clients[o].pc.Begun? && !s.clients[o].pc.call.Acquire?))
    case ReadBack(o) => o in s.clients && s.clients[o].pc.Updated? && s.row.Some?
    case Abort(o) => o in s.clients
  }

  ghost function WithPc(s: State, o: string, pc: Pc): State
    requires o in s.clients
  {
    s.(clients := s.clients[o := s.clients[o].(pc := pc)])
  }

  ghost function ApplyUpdate(c: Config, s: State, o: string): State
    requires Enabled(c, s, Update(o))
  {
    var ttl := if o in c.ttl then c.ttl[o] else 0;
    match (s.clients[o].pc, s.row)
    case (Ensured(now), Some(row)) =>
      if AcquireMatches(row, o, now)
      then WithPc(s.(row := Some(Acquired(row, o, now, ttl)), log := s.log + [o]), o, Updated)
      else WithPc(s, o, Idle)
    case (Begun(Renew, now), Some(row)) =>
      if RenewMatches(row, o, now)
      then WithPc(s.(row := Some(Extended(row, now, ttl))), o, Updated)
      else WithPc(s, o, Idle)
    case (Begun(Release, now), Some(row)) =>
      if row.ownerId == o
      then WithPc(s.(row := Some(Extended(row, now, 0))), o, Idle)
      else WithPc(s, o, Idle)
    case _ => WithPc(s, o, Idle)
  }

  ghost function Apply(c: Config, s: State, e: Event): State
    requires Enabled(c, s, e)
  {
    match e
    case Tick(to) => s.(clock := to)
    case Begin(o, call) =>
      var held := if call.Release? then [] else s.clients[o].held;
      s.(clients := s.clients[o := Client(Begun(call, s.clock), s.clock, held)])
    case Ensure(o) =>
      WithPc(s.(row := if s.row.None? then Some(FRESH_ROW) else s.row), o, Ensured(s.clients[o].pc.now))
    case Update(o) => ApplyUpdate(c, s, o)
    case ReadBack(o) =>
      var held := s.clients[o].held + [GrantOf(c.leaseKey, s.row.value)];
      s.(clients := s.clients[o := s.clients[o].(pc := Idle, held := held)])
    case Abort(o) => WithPc(s, o, Idle)
  }

  /** `ss` are the states passed through and `es` the events between them. */
  ghost predicate Steps(c: Config, es: seq<Event>, ss: seq<State>) {
    && |ss| == |es| + 1
    && forall i {:trigger es[i]} | 0 <= i < |es| :: Enabled(c, ss[i], es[i]) && ss[i + 1] == Apply(c, ss[i], es[i])
  }

  ghost predicate IsRun(c: Config, es: seq<Event>, ss: seq<State>) {
    Steps(c, es, ss) && Init(c, ss[0])
  }

  // ----- a call that nothing interleaves with

  lemma StepOn(c: Config, es: seq<Event>, ss: seq<State>, e: Event) returns (es': seq<Event>, ss': seq<State>)
    requires Steps(c, es, ss) && Enabled(c, ss[|es|], e)
    ensures Steps(c, es', ss') && es' == es + [e] && ss' == ss + [Apply(c, ss[|es|], e)]
  {
    es', ss' := es + [e], ss + [Apply(c, ss[|es|], e)];
  }

  /** An acquire, from any state, whose statements run `delay` after it read its clock: it takes a
      row that had expired by that clock or is its own, under the next token. */
  lemma AcquireAlone(c: Config, s: State, o: string, delay: nat) returns (es: seq<Event>, ss: seq<State>)
    requires o in s.clients && s.clients[o].pc.Idle? && o in c.ttl
    ensures Steps(c, es, ss) && ss[0] == s && o in ss[|es|].clients && ss[|es|].clients[o].pc.Idle?
    ensures var row := if s.row.Some? then s.row.value else LeaseRow(UNOWNED, 0, 0, 0);
            var held, now, end := s.clients[o].held, s.clock, ss[|es|];
            && end.clock == now + delay
            && (row.expiresAt <= now || row.ownerId == o ==>
                  && end.row == Some(LeaseRow(o, row.fencingToken + 1, now + c.ttl[o], now))
                  && end.clients[o].held == held + [Grant(c.leaseKey, o, row.fencingToken + 1, now + c.ttl[o])])
            && (!(row.expiresAt <= now || row.ownerId == o) ==> end.row == Some(row) && end.clients[o].held == held)
  {
    es, ss := StepOn(c, [], [s], Begin(o, Acquire));
    es, ss := StepOn(c, es, ss, Tick(s.clock + delay));
    es, ss := StepOn(c, es, ss, Ensure(o));
    es, ss := StepOn(c, es, ss, Update(o));
    if ss[|es|].clients[o].pc.Updated? {
      es, ss := StepOn(c, es, ss, ReadBack(o));
    }
  }

  /** A renewal: it extends a row of the owner that was unexpired by its clock, under the same token. */
  lemma RenewAlone(c: Config, s: State, o: string, delay: nat) returns (es: seq<Event>, ss: seq<State>)
    requires o in s.clients && s.clients[o].pc.Idle? && o in c.ttl
    ensures Steps(c, es, ss) && ss[0] == s && o in ss[|es|].clients && ss[|es|].clients[o].pc.Idle?
    ensures var now, end := s.clock, ss[|es|];
            if s.row.Some? && s.row.value.ownerId == o && now <= s.row.value.expiresAt then
              && end.row == Some(LeaseRow(o, s.row.value.fencingToken, now + c.ttl[o], now))
              && end.clients[o].held == s.clients[o].held + [Grant(c.leaseKey, o, s.row.value.fencingToken, now + c.ttl[o])]
            else end.row == s.row && end.clients[o].held == s.clients[o].held
  {
    es, ss := StepOn(c, [], [s], Begin(o, Renew));
    es, ss := StepOn(c, es, ss, Tick(s.clock + delay));
    es, ss := StepOn(c, es, ss, Update(o));
    if ss[|es|].clients[o].pc.Updated? {
      es, ss := StepOn(c, es, ss, ReadBack(o));
    }
  }

  /** A release: it ends the owner's row as of its clock and leaves any other row alone. */
  lemma ReleaseAlone(c: Config, s: State, o: string, delay: nat) returns (es: seq<Event>, ss: seq<State>)
    requires o in s.clients && s.clients[o].pc.Idle?
    ensures Steps(c, es, ss) && ss[0] == s && o in ss[|es|].clients && ss[|es|].clients[o] == Client(Idle, s.clock, [])
    ensures ss[|es|].row == if s.row.Some? && s.row.value.ownerId == o
                            then Some(LeaseRow(o, s.row.value.fencingToken, s.clock, s.clock)) else s.row
  {
    es, ss := StepOn(c, [], [s], Begin(o, Release));
    es, ss := StepOn(c, es, ss, Tick(s.clock + delay));
    es, ss := StepOn(c, es, ss, Update(o));
  }

  /** The token counts the acquires and the owner is the latest acquirer. */
  ghost predicate RowMatchesLog(s: State) {
    && (s.row.None? ==> s.log == [])
    && (s.row.Some? ==>
          && s.row.value.fencingToken == |s.log|
          && s.row.value.ownerId == (if s.log == [] then UNOWNED else s.log[|s.log| - 1]))
    && UNOWNED !in s.log
  }

  ghost predicate ClocksAhead(c: Config, s: State) {
    && s.clients.Keys == c.ttl.Keys
    && UNOWNED !in c.ttl
    && forall o | o in s.clients ::
         && s.clients[o].lastNow <= s.clock
         && (s.clients[o].pc.Begun? || s.clients[o].pc.Ensured? ==> s.clients[o].pc.now == s.clients[o].lastNow)
         && (s.clients[o].pc.Ensured? || s.clients[o].pc.Updated? ==> s.row.Some?)
         && (s.clients[o].pc.Updated? ==> s.log != [])
         && (s.clients[o].pc.Begun? && s.clients[o].pc.call.Release? ==> s.clients[o].held == [])
  }

  /** No later expiry can be written by the owner's earlier clock readings. */
  ghost predicate ExpiryBounded(c: Config, s: State) {
    s.row.Some? && s.row.value.ownerId in c.ttl && s.row.value.ownerId in s.clients ==>
      s.row.value.expiresAt <= s.clients[s.row.value.ownerId].lastNow + c.ttl[s.row.value.ownerId]
  }

  ghost predicate TokenNamesOwner(s: State, g: Grant) {
    1 <= g.fencingToken <= |s.log| && s.log[g.fencingToken - 1] == g.ownerId
  }

  /** A later acquire by somebody else exists. */
  ghost predicate Superseded(s: State, g: Grant) {
    exists j :: g.fencingToken <= j < |s.log| && s.log[j] != g.ownerId
  }

  ghost predicate GrantOk(s: State, o: string, g: Grant) {
    && TokenNamesOwner(s, g)
    && (g.ownerId == o && Superseded(s, g) ==> g.expiresAt <= s.clock)
    && (g.ownerId == o && !Superseded(s, g) ==> s.row.Some? && s.row.value.ownerId == o && g.expiresAt <= s.row.value.expiresAt)
  }

  ghost predicate GrantsOk(s: State) {
    forall o | o in s.clients :: forall g | g in s.clients[o].held :: GrantOk(s, o, g)
  }

  ghost predicate Inv(c: Config, s: State) {
    RowMatchesLog(s) && ClocksAhead(c, s) && ExpiryBounded(c, s) && GrantsOk(s)
  }

  lemma GrantStaysOk(s: State, s': State, o: string, g: Grant)
    requires GrantOk(s, o, g)
    requires s'.clock >= s.clock && s'.log == s.log
    requires s'.row == s.row || (s.row.Some? && s'.row.Some? && s'.row.value.ownerId == s.row.value.ownerId
              && (s.row.value.ownerId == o ==> s'.row.value.expiresAt >= s.row.value.expiresAt))
    ensures GrantOk(s', o, g)
  {
    assert Superseded(s', g) == Superseded(s, g);
  }

  lemma GrantAfterAcquire(s: State, s': State, o: string, g: Grant, p: string)
    requires GrantOk(s, o, g) && RowMatchesLog(s)
    requires s.row.Some? && s'.row.Some? && s'.clock == s.clock && s'.log == s.log + [p]
    requires s'.row.value.ownerId == p
    requires p == o ==> s'.row.value.expiresAt >= s.row.value.expiresAt || s.row.value.ownerId != o
    requires p != o ==> s.row.value.expiresAt <= s.clock || s.row.value.ownerId == p
    ensures GrantOk(s', o, g)
  {
    if Superseded(s, g) {
      var j :| g.fencingToken <= j < |s.log| && s.log[j] != g.ownerId;
      assert s'.log[j] != g.ownerId;
    } else if g.ownerId == o && p != o {
      assert s'.log[|s.log|] != g.ownerId;
      assert Superseded(s', g);
    } else if g.ownerId == o {
      assert !Superseded(s', g);
    }
  }

  lemma StepKeepsBookkeeping(c: Config, s: State, e: Event)
    requires Inv(c, s) && Enabled(c, s, e)
    ensures var s' := Apply(c, s, e); RowMatchesLog(s') && ClocksAhead(c, s') && ExpiryBounded(c, s')
  {
    if e.Update? {
      UpdateEffect(c, s, e.owner);
    }
  }

  /** An update statement keeps the log and never lowers its owner's expiry while that
      owner holds grants, or logs its owner as the new holder of an expired or own row. */
  lemma UpdateEffect(c: Config, s: State, o: string)
    requires Inv(c, s) && Enabled(c, s, Update(o))
    ensures var s' := ApplyUpdate(c, s, o);
            && s'.clock == s.clock && s'.clients.Keys == s.clients.Keys
            && (forall p | p in s.clients ::
                  && s'.clients[p].held == s.clients[p].held && s'.clients[p].lastNow == s.clients[p].lastNow
                  && (p != o ==> s'.clients[p] == s.clients[p]))
            && (s'.clients[o].pc.Idle? || (s'.clients[o].pc.Updated? && s'.row.Some? && s'.log != []))
            && (s.row.None? ==> s'.row == s.row && s'.log == s.log)
            && (s.row.Some? && s.row.value.ownerId != o && (s.row.value.expiresAt > s.clock || !s.clients[o].pc.Ensured?) ==>
                  s'.row == s.row && s'.log == s.log)
            && (s.row.Some? && s'.log == s.log ==>
                  && s'.row.Some? && s'.row.value.ownerId == s.row.value.ownerId
                  && s'.row.value.fencingToken == s.row.value.fencingToken
                  && (s'.row != s.row ==> o == s.row.value.ownerId)
                  && (s'.row != s.row && s.clients[o].held != [] ==> s'.row.value.expiresAt >= s.row.value.expiresAt)
                  && (s'.row != s.row ==> s'.row.value.expiresAt <= s.clients[o].lastNow + c.ttl[o]))
            && (s'.log != s.log ==>
                  && s'.log == s.log + [o] && s.row.Some?
                  && s'.row == Some(Acquired(s.row.value, o, s.clients[o].lastNow, c.ttl[o]))
                  && (s.row.value.expiresAt <= s.clock || s.row.value.ownerId == o))
  {
  }

  lemma StepKeepsGrants(c: Config, s: State, e: Event)
    requires Inv(c, s) && Enabled(c, s, e)
    ensures GrantsOk(Apply(c, s, e))
  {
    var s' := Apply(c, s, e);
    if e.Update? {
      UpdateEffect(c, s, e.owner);
    }
    forall o, g | o in s'.clients && g in s'.clients[o].held ensures GrantOk(s', o, g) {
      if e.ReadBack? && g !in s.clients[o].held {
        assert g == GrantOf(c.leaseKey, s.row.value);
        assert !Superseded(s', g);
      } else if s'.log == s.log {
        GrantStaysOk(s, s', o, g);
      } else {
        GrantAfterAcquire(s, s', o, g, e.owner);
      }
    }
  }

  lemma {:induction false} RunKeepsInv(c: Config, es: seq<Event>, ss: seq<State>, i: nat)
    requires IsRun(c, es, ss) && i < |ss|
    ensures Inv(c, ss[i])
    decreases i
  {
    if i > 0 {
      RunKeepsInv(c, es, ss, i - 1);
      StepKeepsBookkeeping(c, ss[i - 1], es[i - 1]);
      StepKeepsGrants(c, ss[i - 1], es[i - 1]);
    }
  }

  /** Fencing: once somebody else has been granted a larger token, the smaller token's
      holder has run out of time. */
  lemma LargerTokenMeansExpired(c: Config, es: seq<Event>, ss: seq<State>, i: nat, o: string, g: Grant, p: string, h: Grant)
    requires IsRun(c, es, ss) && i < |ss|
    requires o in ss[i].clients && g in ss[i].clients[o].held && g.ownerId == o
    requires p in ss[i].clients && h in ss[i].clients[p].held && h.ownerId != o
    requires g.fencingToken <= h.fencingToken
    ensures g.expiresAt <= ss[i].clock && g.fencingToken < h.fencingToken
  {
    RunKeepsInv(c, es, ss, i);
    assert GrantOk(ss[i], o, g) && GrantOk(ss[i], p, h);
    assert ss[i].log[h.fencingToken - 1] != g.ownerId;
  }

  /** Mutual exclusion: two owners never both hold a live grant that names them. */
  lemma NoTwoLiveGrants(c: Config, es: seq<Event>, ss: seq<State>, i: nat, o: string, g: Grant, p: string, h: Grant)
    requires IsRun(c, es, ss) && i < |ss|
    requires o in ss[i].clients && g in ss[i].clients[o].held && g.ownerId == o && ss[i].clock < g.expiresAt
    requires p in ss[i].clients && h in ss[i].clients[p].held && h.ownerId == p && ss[i].clock < h.expiresAt
    ensures o == p
  {
    if o != p {
      if g.fencingToken <= h.fencingToken {
        LargerTokenMeansExpired(c, es, ss, i, o, g, p, h);
      } else {
        LargerTokenMeansExpired(c, es, ss, i, p, h, o, g);
      }
    }
  }

  lemma {:induction false} LogGrows(c: Config, es: seq<Event>, ss: seq<State>, i: nat, j: nat)
    requires IsRun(c, es, ss) && i <= j < |ss|
    ensures ss[i].log <= ss[j].log
    decreases j - i
  {
    if i < j {
      LogGrows(c, es, ss, i, j - 1);
      RunKeepsInv(c, es, ss, j - 1);
      if es[j - 1].Update? {
        UpdateEffect(c, ss[j - 1], es[j - 1].owner);
      }
    }
  }

  /** Tokens: the stored token counts the acquires, and every token handed out belongs
      to the owner that acquired it, for ever. */
  lemma TokensCountAcquires(c: Config, es: seq<Event>, ss: seq<State>, i: nat, j: nat)
    requires IsRun(c, es, ss) && i <= j < |ss|
    ensures ss[j].row.Some? ==> ss[j].row.value.fencingToken == |ss[j].log|
    ensures forall o, g | o in ss[i].clients && g in ss[i].clients[o].held :: TokenNamesOwner(ss[j], g)
  {
    RunKeepsInv(c, es, ss, i);
    RunKeepsInv(c, es, ss, j);
    LogGrows(c, es, ss, i, j);
    forall o, g | o in ss[i].clients && g in ss[i].clients[o].held ensures TokenNamesOwner(ss[j], g) {
      assert GrantOk(ss[i], o, g);
    }
  }

  /** One statement: an acquire that goes through raises the token by one and makes the
      caller the owner; a renewal or a release keeps owner and token, and does nothing at
      all for a caller that no longer owns the row. */
  lemma UpdateMovesTokenByOne(c: Config, es: seq<Event>, ss: seq<State>, i: nat, o: string)
    requires IsRun(c, es, ss) && i < |es| && es[i] == Update(o)
    ensures ss[i].row.Some? ==> ss[i + 1].row.Some?
    ensures ss[i].row.Some? && ss[i].clients[o].pc.Ensured? && ss[i + 1].clients[o].pc.Updated? ==>
              && ss[i + 1].row.value.ownerId == o
              && ss[i + 1].row.value.fencingToken == ss[i].row.value.fencingToken + 1
              && (ss[i].row.value.ownerId == o || ss[i].row.value.expiresAt <= ss[i].clock)
    ensures ss[i].row.Some? && (!ss[i].clients[o].pc.Ensured? || ss[i + 1].clients[o].pc.Idle?) ==>
              && ss[i + 1].row.value.ownerId == ss[i].row.value.ownerId
              && ss[i + 1].row.value.fencingToken == ss[i].row.value.fencingToken
    ensures ss[i].row.Some? && !ss[i].clients[o].pc.Ensured? && ss[i].row.value.ownerId != o ==>
              ss[i + 1].row == ss[i].row && ss[i + 1].clients[o].pc.Idle?
  {
    RunKeepsInv(c, es, ss, i);
    assert ss[i + 1] == ApplyUpdate(c, ss[i], o);
  }

  /** Why calls of one owner must follow each other: a renewal whose clock was read
      earlier may land later and pull the stored expiry below the expiry of a grant that
      was already returned, exactly when that grant's clock was read later. */
  lemma LateRenewalShrinksExpiry(row: LeaseRow, o: string, now: nat, late: nat, ttlMs: nat)
    requires RenewMatches(row, o, now) && RenewMatches(Extended(row, now, ttlMs), o, late)
    ensures var granted := Extended(row, now, ttlMs); var stored := Extended(granted, late, ttlMs);
            stored.expiresAt < granted.expiresAt <==> late < now
    ensures late < now ==>
              exists other: string, at: nat ::
                && AcquireMatches(Extended(Extended(row, now, ttlMs), late, ttlMs), other, at)
                && at < Extended(row, now, ttlMs).expiresAt && other != o
  {
    if late < now {
      var other := o + "'";
      assert AcquireMatches(Extended(Extended(row, now, ttlMs), late, ttlMs), other, late + ttlMs);
    }
  }
}
