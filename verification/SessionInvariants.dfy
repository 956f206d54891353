/** What every history of session operations keeps: expiry arithmetic, the concurrency cap, and the audit trail. */
module SessionInvariants {
  import opened Prelude
  import opened Ranking
  import opened Sessions

  // ---- how one operation may change one row --------------------------------------------------------

  /** The columns no operation may change once a row exists. */
  predicate SameIdentity(r: Session, n: Session) {
    && n.id == r.id && n.user == r.user && n.securityVersion == r.securityVersion
    && n.createdAt == r.createdAt && n.authenticatedAt == r.authenticatedAt
    && n.absoluteExpiresAt == r.absoluteExpiresAt
  }

  /** A revoked row is frozen, nothing is un-revoked, and only a valid session's idle expiry is extended. */
  predicate Evolves(r: Session, n: Session, now: int) {
    && SameIdentity(r, n)
    && (r.revokedAt.Some? ==> n == r)
    && (r.idleExpiresAt < n.idleExpiresAt ==> IsValid(r, now, r.securityVersion))
  }

  predicate RowOk(r: Session, i: nat, clock: int) {
    && r.id == i
    && r.createdAt <= r.lastSeenAt <= clock
    && r.lastSeenAt < r.absoluteExpiresAt == r.createdAt + ABSOLUTE_TIMEOUT
    && r.idleExpiresAt <= r.lastSeenAt + IDLE_TIMEOUT
    && r.idleExpiresAt <= r.absoluteExpiresAt
    && (r.revokedAt == None <==> r.revokedReason == None)
    && (r.membership == None <==> r.membershipVersion == None)
  }

  ghost predicate RowsOk(rows: Rows, clock: int) {
    forall i | i in rows :: RowOk(rows[i], i, clock)
  }

  ghost predicate DistinctBearers(rows: Rows) {
    forall i, j | i in rows && j in rows && rows[i].bearer == rows[j].bearer :: i == j
  }

  ghost predicate Recorded(rows: Rows, used: set<Digest>) {
    forall i | i in rows :: rows[i].bearer in used
  }

  lemma RowsOkLater(rows: Rows, clock: int, now: int)
    requires RowsOk(rows, clock) && clock <= now
    ensures RowsOk(rows, now)
  {
  }

  /** An evicted stamp belongs to a row that is valid right now. */
  lemma EvictedAreValid(rows: Rows, user: nat, securityVersion: nat, now: int, i: nat)
    requires forall j | j in rows :: rows[j].id == j
    requires i in rows && StampOf(rows[i]) in Evicted(rows, user, securityVersion, now)
    ensures rows[i].user == user && IsValid(rows[i], now, securityVersion)
  {
    var valid := ValidStamps(rows, user, securityVersion, now);
    OldestWithin(valid, Excess(|valid|));
    assert StampOf(rows[i]) in valid;
    var j :| j in rows && rows[j].user == user && IsValid(rows[j], now, securityVersion)
      && StampOf(rows[j]) == StampOf(rows[i]);
    assert j == i;
  }

  lemma IssueEvolves(rows: Rows, clock: int, op: Op)
    requires RowsOk(rows, clock) && op.Issue? && op.id !in rows && clock <= op.now
    ensures var after := AfterIssue(rows, op);
      && after.Keys == rows.Keys + {op.id}
      && (forall i | i in rows :: Evolves(rows[i], after[i], op.now) && after[i].bearer == rows[i].bearer)
      && RowsOk(after, op.now)
  {
    forall i | i in rows && StampOf(rows[i]) in Evicted(rows, op.user, op.securityVersion, op.now)
      ensures rows[i].revokedAt == None
    {
      EvictedAreValid(rows, op.user, op.securityVersion, op.now, i);
    }
    hide Evicted;
  }

  /** A written-back row evolves an existing one and keeps its bearer unless a rotation renews it. */
  lemma ReplacementEvolves(rows: Rows, clock: int, op: Op)
    requires RowsOk(rows, clock) && clock <= op.now
    requires !op.Issue? && !op.RevokeEvery? && Replacement(rows, op).Some?
    ensures var r := Replacement(rows, op).value;
      && r.id in rows && rows[r.id].bearer == Sha256(op.bearer)
      && Evolves(rows[r.id], r, op.now) && RowOk(r, r.id, op.now)
      && rows[r.id].revokedAt == None
      && r.bearer == if op.RotateTo? then Sha256(op.newBearer) else Sha256(op.bearer)
  {
  }

  lemma RevokeEveryEvolves(rows: Rows, clock: int, user: nat, now: int, reason: Reason)
    requires RowsOk(rows, clock) && clock <= now
    ensures var after := AfterRevokeEvery(rows, user, now, reason);
      && after.Keys == rows.Keys && RowsOk(after, now)
      && (forall i | i in rows :: Evolves(rows[i], after[i], now) && after[i].bearer == rows[i].bearer)
  {
  }

  /** Every operation leaves every existing row evolved and adds at most the row an issue names. */
  lemma StepEvolves(rows: Rows, clock: int, op: Op)
    requires RowsOk(rows, clock) && clock <= op.now && (op.Issue? ==> op.id !in rows)
    ensures var after := RowsAfter(rows, op);
      && after.Keys == rows.Keys + (if op.Issue? then {op.id} else {})
      && (forall i | i in rows :: Evolves(rows[i], after[i], op.now))
      && RowsOk(after, op.now)
  {
    hide AfterIssue, AfterRevokeEvery, Replacement;
    if op.Issue? {
      IssueEvolves(rows, clock, op);
    } else if op.RevokeEvery? {
      RevokeEveryEvolves(rows, clock, op.user, op.now, RevokeAll);
    } else if Replacement(rows, op).Some? {
      ReplacementEvolves(rows, clock, op);
    }
  }

  lemma StepKeepsBearers(rows: Rows, clock: int, used: set<Digest>, op: Op)
    requires RowsOk(rows, clock) && clock <= op.now && (op.Issue? ==> op.id !in rows)
    requires NewBearer(op).Some? ==> Sha256(NewBearer(op).value) !in used
    requires DistinctBearers(rows) && Recorded(rows, used)
    ensures var after := RowsAfter(rows, op);
      && DistinctBearers(after)
      && Recorded(after, if NewBearer(op).Some? then used + {Sha256(NewBearer(op).value)} else used)
  {
    hide AfterRevokeEvery, Replacement, Evicted;
    if op.Issue? {
    } else if op.RevokeEvery? {
      RevokeEveryEvolves(rows, clock, op.user, op.now, RevokeAll);
    } else if Replacement(rows, op).Some? {
      ReplacementEvolves(rows, clock, op);
    }
  }

  /** A bearer that was in use before an operation finds only a session it found before, of the same user. */
  lemma UsedBearerStays(rows: Rows, clock: int, used: set<Digest>, op: Op, d: Digest)
    requires RowsOk(rows, clock) && clock <= op.now && (op.Issue? ==> op.id !in rows)
    requires NewBearer(op).Some? ==> Sha256(NewBearer(op).value) !in used
    requires d in used
    ensures var after := RowsAfter(rows, op);
      forall i | i in after && after[i].bearer == d :: i in rows && rows[i].bearer == d && rows[i].user == after[i].user
  {
    hide AfterRevokeEvery, Replacement, Evicted;
    if op.Issue? {
      IssueEvolves(rows, clock, op);
    } else if op.RevokeEvery? {
      RevokeEveryEvolves(rows, clock, op.user, op.now, RevokeAll);
    } else if Replacement(rows, op).Some? {
      ReplacementEvolves(rows, clock, op);
    }
  }

  // ---- the concurrency cap ---------------------------------------------------------------------------

  /** At any later time, no session outside the ones valid now is valid. */
  lemma ValidityOnlyFades(rows: Rows, user: nat, securityVersion: nat, now: int, later: int)
    requires now <= later
    ensures ValidStamps(rows, user, securityVersion, later) <= ValidStamps(rows, user, securityVersion, now)
  {
  }

  ghost predicate Capped(rows: Rows, clock: int) {
    forall user, v :: |ValidStamps(rows, user, v, clock)| <= MAX_CONCURRENT
  }

  lemma EvolvedValidity(rows: Rows, after: Rows, now: int, user: nat, v: nat)
    requires forall i | i in after :: i in rows && Evolves(rows[i], after[i], now)
    ensures ValidStamps(after, user, v, now) <= ValidStamps(rows, user, v, now)
  {
  }

  /**
   `issue` revokes exactly the max(0, n - 4) oldest of the user's n valid sessions, by (created_at, id),
   and leaves the other valid ones and the new one: min(n, 4) + 1 of them.
   */
  lemma IssueEvictsOldest(rows: Rows, clock: int, op: Op)
    requires RowsOk(rows, clock) && op.Issue? && op.id !in rows && clock <= op.now
    ensures var valid := ValidStamps(rows, op.user, op.securityVersion, op.now);
      var evicted := Evicted(rows, op.user, op.securityVersion, op.now);
      var newest := Stamp(op.now, op.id);
      && |evicted| == Excess(|valid|) && evicted <= valid && newest !in valid
      && (forall x, y | x in evicted && y in valid - evicted :: x.at < y.at || (x.at == y.at && x.id < y.id))
      && ValidStamps(AfterIssue(rows, op), op.user, op.securityVersion, op.now) == (valid - evicted) + {newest}
      && |(valid - evicted) + {newest}| == Min(|valid|, MAX_CONCURRENT - 1) + 1
      && (forall i | i in rows :: AfterIssue(rows, op)[i] ==
            if StampOf(rows[i]) in evicted then Revoke(rows[i], op.now, ConcurrentLimit) else rows[i])
  {
    var valid := ValidStamps(rows, op.user, op.securityVersion, op.now);
    var evicted := Evicted(rows, op.user, op.securityVersion, op.now);
    OldestSize(valid, Excess(|valid|));
    OldestWithin(valid, Excess(|valid|));
    forall x, y | x in evicted && y in valid - evicted
      ensures x.at < y.at || (x.at == y.at && x.id < y.id)
    {
      OldestPrecede(valid, Excess(|valid|), x, y);
    }
    IssueLeaves(rows, clock, op);
    hide Evicted, ValidStamps, Oldest, AfterIssue;
    assert |valid - evicted| == |valid| - |evicted|;
  }

  lemma IssueLeaves(rows: Rows, clock: int, op: Op)
    requires RowsOk(rows, clock) && op.Issue? && op.id !in rows && clock <= op.now
    ensures var valid := ValidStamps(rows, op.user, op.securityVersion, op.now);
      var newest := Stamp(op.now, op.id);
      && newest !in valid
      && ValidStamps(AfterIssue(rows, op), op.user, op.securityVersion, op.now)
         == (valid - Evicted(rows, op.user, op.securityVersion, op.now)) + {newest}
  {
    hide Evicted;
    var valid := ValidStamps(rows, op.user, op.securityVersion, op.now);
    var evicted := Evicted(rows, op.user, op.securityVersion, op.now);
    var after := AfterIssue(rows, op);
    var left := ValidStamps(after, op.user, op.securityVersion, op.now);
    forall x | x in (valid - evicted) + {Stamp(op.now, op.id)}
      ensures x in left
    {
      var i := x.id;
      assert StampOf(after[i]) == x;
    }
  }

  lemma IssueElsewhere(rows: Rows, clock: int, op: Op, user: nat, v: nat)
    requires RowsOk(rows, clock) && op.Issue? && op.id !in rows && clock <= op.now
    requires user != op.user || v != op.securityVersion
    ensures ValidStamps(AfterIssue(rows, op), user, v, op.now) <= ValidStamps(rows, user, v, op.now)
  {
    IssueEvolves(rows, clock, op);
    hide Evicted;
  }

  lemma StepKeepsCap(rows: Rows, clock: int, op: Op)
    requires RowsOk(rows, clock) && clock <= op.now && (op.Issue? ==> op.id !in rows)
    requires Capped(rows, clock)
    ensures Capped(RowsAfter(rows, op), op.now)
  {
    forall user, v
      ensures |ValidStamps(RowsAfter(rows, op), user, v, op.now)| <= MAX_CONCURRENT
    {
      var before, now := ValidStamps(rows, user, v, clock), ValidStamps(rows, user, v, op.now);
      ValidityOnlyFades(rows, user, v, clock, op.now);
      SubsetSize(now, before);
      if op.Issue? && user == op.user && v == op.securityVersion {
        IssueEvictsOldest(rows, clock, op);
      } else {
        if op.Issue? {
          IssueElsewhere(rows, clock, op, user, v);
        } else {
          StepEvolves(rows, clock, op);
          EvolvedValidity(rows, RowsAfter(rows, op), op.now, user, v);
        }
        SubsetSize(ValidStamps(RowsAfter(rows, op), user, v, op.now), now);
      }
    }
  }
}
