/** What each session operation writes, column by column, from what the rows hold at the time. */
module SessionOutcomes {
  import opened Prelude
  import opened Ranking
  import opened Sessions
  import opened SessionInvariants

  /** A minute, thirty minutes and eight hours, in microseconds. */
  const PACE := 60 * 1_000_000
  const IDLE := 30 * 60 * 1_000_000
  const ABSOLUTE := 8 * 3600 * 1_000_000

  lemma FindsOnly(rows: Rows, bearer: nat, i: nat)
    requires DistinctBearers(rows) && i in rows && rows[i].bearer == Sha256(bearer)
    ensures Find(rows, Sha256(bearer)) == Some(i)
  {
    assert Holds(rows, Sha256(bearer), i);
  }

  lemma FindsNone(rows: Rows, bearer: nat)
    requires forall i | i in rows :: rows[i].bearer != Sha256(bearer)
    ensures Find(rows, Sha256(bearer)) == None
  {
  }

  /**
   Issue adds one row, unrevoked and unselected, live for thirty minutes and eight hours at most, and revokes at that
   time for the cap the rows it evicts: unrevoked, unexpired rows of the user at the version.
   */
  lemma IssueWrites(rows: Rows, clock: int, op: Op)
    requires RowsOk(rows, clock) && op.Issue? && op.id !in rows && clock <= op.now
    ensures var after, now := RowsAfter(rows, op), op.now;
      && after.Keys == rows.Keys + {op.id}
      && after[op.id] == Session(op.id, op.user, Sha256(op.bearer), Sha256(op.csrf), op.securityVersion, now, now, now,
                                 now + IDLE, now + ABSOLUTE, None, None, None, None)
      && forall i | i in rows && after[i] != rows[i] ::
           && after[i] == rows[i].(revokedAt := Some(now), revokedReason := Some(ConcurrentLimit))
           && rows[i].user == op.user && rows[i].securityVersion == op.securityVersion
           && rows[i].revokedAt == None && now < rows[i].idleExpiresAt && now < rows[i].absoluteExpiresAt
  {
    forall i | i in rows && StampOf(rows[i]) in Evicted(rows, op.user, op.securityVersion, op.now)
      ensures rows[i].user == op.user && IsValid(rows[i], op.now, op.securityVersion)
    {
      EvictedAreValid(rows, op.user, op.securityVersion, op.now, i);
    }
    hide Evicted;
  }

  lemma {:induction false} EvictionEventsName(user: nat, order: seq<Stamp>)
    ensures |EvictionEvents(user, order)| == |order|
    ensures forall k | 0 <= k < |order| ::
      EvictionEvents(user, order)[k] == Event(SessionRevoked, ConcurrentLimit, user, Some(order[k].id))
  {
    if order != [] {
      EvictionEventsName(user, order[..|order| - 1]);
    }
  }

  /** Issue writes one event for each row it evicts, oldest first, naming the user and the row. */
  lemma IssueReports(rows: Rows, clock: int, op: Op)
    requires RowsOk(rows, clock) && op.Issue? && op.id !in rows && clock <= op.now
    ensures var after, events := RowsAfter(rows, op), EventsOf(rows, op);
      && (forall k | 0 <= k < |events| ::
            && events[k].session.Some? && events[k].session.value in rows
            && rows[events[k].session.value] != after[events[k].session.value]
            && events[k] == Event(SessionRevoked, ConcurrentLimit, op.user, events[k].session))
      && (forall j, k | 0 <= j < k < |events| ::
            var a, b := rows[events[j].session.value], rows[events[k].session.value];
            a.createdAt < b.createdAt || (a.createdAt == b.createdAt && a.id < b.id))
  {
    var valid := ValidStamps(rows, op.user, op.securityVersion, op.now);
    var evicted := Evicted(rows, op.user, op.securityVersion, op.now);
    var order := Ordered(evicted);
    OrderedAscends(evicted);
    OldestWithin(valid, Excess(|valid|));
    EvictionEventsName(op.user, order);
    forall k | 0 <= k < |order|
      ensures order[k].id in rows && order[k] == StampOf(rows[order[k].id])
      ensures rows[order[k].id].revokedAt == None
    {
      assert order[k] in Elements(order);
    }
    hide Evicted, ValidStamps, Ordered, EvictionEvents;
  }

  /** The rows where only the one under key i may differ, and is this. */
  predicate OnlyWrites(rows: Rows, after: Rows, i: nat, r: Session) {
    after.Keys == rows.Keys && i in after && after[i] == r && forall j | j in rows && j != i :: after[j] == rows[j]
  }

  /**
   A resolve of a live session at its version notes the use, a minute apart at the least, and moves the idle expiry
   thirty minutes on but never past the absolute one; anything else writes nothing.
   */
  lemma ResolveWrites(rows: Rows, clock: int, op: Op)
    requires RowsOk(rows, clock) && DistinctBearers(rows) && op.Resolve?
    ensures var after, now := RowsAfter(rows, op), op.now;
      && (forall i | i in rows && rows[i].bearer == Sha256(op.bearer) ::
            var r := rows[i];
            if && r.revokedAt == None && r.securityVersion == op.securityVersion
               && now < r.idleExpiresAt && now < r.absoluteExpiresAt && now - r.lastSeenAt >= PACE
            then OnlyWrites(rows, after, i, r.(lastSeenAt := now,
                   idleExpiresAt := if now + IDLE < r.absoluteExpiresAt then now + IDLE else r.absoluteExpiresAt))
            else after == rows)
      && ((forall i | i in rows :: rows[i].bearer != Sha256(op.bearer)) ==> after == rows)
  {
    if i :| i in rows && rows[i].bearer == Sha256(op.bearer) {
      FindsOnly(rows, op.bearer, i);
    } else {
      FindsNone(rows, op.bearer);
    }
    hide Find;
  }

  /**
   A rotation of a live session at its version puts the new bearer and CSRF digests and the time of use in place of the
   old, moves the idle expiry as a resolve would, and takes the selection if one is given; anything else writes nothing.
   */
  lemma RotateWrites(rows: Rows, clock: int, op: Op)
    requires RowsOk(rows, clock) && DistinctBearers(rows) && op.RotateTo?
    ensures var after, now := RowsAfter(rows, op), op.now;
      && (forall i | i in rows && rows[i].bearer == Sha256(op.bearer) ::
            var r := rows[i];
            if && r.revokedAt == None && r.securityVersion == op.securityVersion
               && now < r.idleExpiresAt && now < r.absoluteExpiresAt
            then OnlyWrites(rows, after, i, r.(
                   bearer := Sha256(op.newBearer), csrf := Sha256(op.newCsrf), lastSeenAt := now,
                   idleExpiresAt :=
                     if now - r.lastSeenAt < PACE then r.idleExpiresAt
                     else if now + IDLE < r.absoluteExpiresAt then now + IDLE else r.absoluteExpiresAt,
                   membership := if op.selection.Some? then Some(op.selection.value.membership) else r.membership,
                   membershipVersion :=
                     if op.selection.Some? then Some(op.selection.value.version) else r.membershipVersion))
            else after == rows)
      && ((forall i | i in rows :: rows[i].bearer != Sha256(op.bearer)) ==> after == rows)
  {
    if i :| i in rows && rows[i].bearer == Sha256(op.bearer) {
      FindsOnly(rows, op.bearer, i);
    } else {
      FindsNone(rows, op.bearer);
    }
    hide Find;
  }

  /** A single revocation marks the unrevoked session under the bearer, expired or not, with its time and one event. */
  lemma RevokeOneWrites(rows: Rows, clock: int, op: Op)
    requires RowsOk(rows, clock) && DistinctBearers(rows) && op.RevokeOne?
    ensures var after, events := RowsAfter(rows, op), EventsOf(rows, op);
      && (forall i | i in rows && rows[i].bearer == Sha256(op.bearer) ::
            if rows[i].revokedAt == None
            then && OnlyWrites(rows, after, i, rows[i].(revokedAt := Some(op.now), revokedReason := Some(Logout)))
                 && events == [Event(op.kind, Logout, rows[i].user, Some(i))]
            else after == rows && events == [])
      && ((forall i | i in rows :: rows[i].bearer != Sha256(op.bearer)) ==> after == rows && events == [])
  {
    if i :| i in rows && rows[i].bearer == Sha256(op.bearer) {
      FindsOnly(rows, op.bearer, i);
    } else {
      FindsNone(rows, op.bearer);
    }
    hide Find;
  }

  /** Revoking a user's sessions marks every unrevoked one with its time, and writes one event if there was any. */
  lemma RevokeEveryWrites(rows: Rows, op: Op)
    requires op.RevokeEvery?
    ensures var after := RowsAfter(rows, op);
      && after.Keys == rows.Keys
      && (forall i | i in rows :: after[i] ==
            if rows[i].user == op.user && rows[i].revokedAt == None
            then rows[i].(revokedAt := Some(op.now), revokedReason := Some(RevokeAll)) else rows[i])
      && EventsOf(rows, op) ==
           if exists i :: i in rows && rows[i].user == op.user && rows[i].revokedAt == None
           then [Event(AllSessionsRevoked, RevokeAll, op.user, None)] else []
  {
    if i :| i in rows && rows[i].user == op.user && rows[i].revokedAt == None {
      assert Unrevoked(rows, op.user, i);
    }
  }

  /** The CSRF write-back replaces that digest of a live session at its version, and nothing else. */
  lemma WriteCsrfWrites(rows: Rows, clock: int, op: Op)
    requires RowsOk(rows, clock) && DistinctBearers(rows) && op.WriteCsrf?
    ensures var after, now := RowsAfter(rows, op), op.now;
      && (forall i | i in rows && rows[i].bearer == Sha256(op.bearer) ::
            var r := rows[i];
            if && r.revokedAt == None && r.securityVersion == op.securityVersion
               && now < r.idleExpiresAt && now < r.absoluteExpiresAt
            then OnlyWrites(rows, after, i, r.(csrf := Sha256(op.csrf)))
            else after == rows)
      && ((forall i | i in rows :: rows[i].bearer != Sha256(op.bearer)) ==> after == rows)
  {
    if i :| i in rows && rows[i].bearer == Sha256(op.bearer) {
      FindsOnly(rows, op.bearer, i);
    } else {
      FindsNone(rows, op.bearer);
    }
    hide Find;
  }

  // ---- over whole histories ---------------------------------------------------------------------------------------

  /** A revoked row says when: at or after its last use, and no later than the clock. */
  ghost predicate RevocationsDated(rows: Rows, clock: int) {
    forall i | i in rows && rows[i].revokedAt.Some? ::
      rows[i].lastSeenAt <= rows[i].revokedAt.value <= clock
  }

  lemma IssueDates(rows: Rows, clock: int, op: Op)
    requires RowsOk(rows, clock) && op.Issue? && op.id !in rows && clock <= op.now && RevocationsDated(rows, clock)
    ensures RevocationsDated(RowsAfter(rows, op), op.now)
  {
    IssueWrites(rows, clock, op);
    hide RowsAfter;
  }

  lemma RevokeEveryDates(rows: Rows, clock: int, op: Op)
    requires RowsOk(rows, clock) && op.RevokeEvery? && clock <= op.now && RevocationsDated(rows, clock)
    ensures RevocationsDated(RowsAfter(rows, op), op.now)
  {
    RevokeEveryWrites(rows, op);
    hide RowsAfter;
  }

  lemma ReplacementDates(rows: Rows, clock: int, op: Op)
    requires RowsOk(rows, clock) && !op.Issue? && !op.RevokeEvery? && clock <= op.now && RevocationsDated(rows, clock)
    ensures RevocationsDated(RowsAfter(rows, op), op.now)
  {
    if Replacement(rows, op).Some? {
      ReplacementEvolves(rows, clock, op);
      ReplacementTime(rows, op);
      hide Replacement;
    }
  }

  lemma ReplacementTime(rows: Rows, op: Op)
    requires !op.Issue? && !op.RevokeEvery? && Replacement(rows, op).Some?
    ensures var r := Replacement(rows, op).value; r.revokedAt == None || r.revokedAt == Some(op.now)
  {
  }

  lemma StepDates(rows: Rows, clock: int, op: Op)
    requires RowsOk(rows, clock) && clock <= op.now && (op.Issue? ==> op.id !in rows) && RevocationsDated(rows, clock)
    ensures RevocationsDated(RowsAfter(rows, op), op.now)
  {
    hide RowsAfter, RowsOk, RevocationsDated;
    if op.Issue? {
      IssueDates(rows, clock, op);
    } else if op.RevokeEvery? {
      RevokeEveryDates(rows, clock, op);
    } else {
      ReplacementDates(rows, clock, op);
    }
  }

  /** After any history each revocation carries a time between the session's last use and the present. */
  lemma {:induction false} RevocationsAlwaysDated(w: World, ops: seq<Op>)
    requires RowsOk(w.state.rows, w.clock) && RevocationsDated(w.state.rows, w.clock) && LegalRun(w, ops)
    ensures RowsOk(Run(w, ops).state.rows, Run(w, ops).clock)
    ensures RevocationsDated(Run(w, ops).state.rows, Run(w, ops).clock)
    decreases |ops|
  {
    if ops != [] {
      StepDates(w.state.rows, w.clock, ops[0]);
      StepEvolves(w.state.rows, w.clock, ops[0]);
      hide RowsAfter, EventsOf, TouchedBy, RowsOk, RevocationsDated, Evolves;
      RevocationsAlwaysDated(Step(w, ops[0]), ops[1..]);
    }
  }
}
