/**
 When a login, a password change or a reset succeeds, and what it then leaves, stated on accounts, sessions and tokens
 as their columns stand, whatever other requests run in between.
 */
module CredentialOutcomes {
  import opened Prelude
  import S = Sessions
  import O = SessionOutcomes
  import opened SessionInvariants
  import opened Credentials
  import opened CredentialHistory
  import opened ResetTokens

  /** Fifteen minutes, in microseconds. */
  const RESET := 15 * 60 * 1_000_000

  // ---- login ------------------------------------------------------------------------------------------------------

  lemma LoginSnapshotIff(db: Db, account: Option<nat>)
    ensures match account
      case None => LoginSnapshot(db, account) == None
      case Some(u) =>
        if u in db.users && u in db.credentials && db.users[u].active
        then LoginSnapshot(db, account) ==
             Some(Snapshot(u, db.credentials[u].hash, db.credentials[u].version, db.users[u].securityVersion))
        else LoginSnapshot(db, account) == None
  {
  }

  /** An account that had a snapshot proceeds exactly when it verified, is still active and was not renewed since. */
  lemma LoginProceedsIff(sys: System, begin: Step, between: seq<Step>, finish: Step, u: nat)
    requires begin.BeginLogin? && begin.account == Some(u)
    requires u in sys.db.users && u in sys.db.credentials && sys.db.users[u].active
    requires LegalRun(Next(sys, begin), between)
    requires forall k | 0 <= k < |between| :: !Finishes(between[k], begin.flight)
    requires finish.FinishLogin? && finish.flight == begin.flight
    ensures var end := Run(Next(sys, begin), between);
      && u in end.db.users && u in end.db.credentials
      && LoginProceeds(end, finish) ==
         if finish.verified && end.db.users[u].active && end.db.credentials[u].version == sys.db.credentials[u].version
         then Some(Snapshot(u, end.db.credentials[u].hash, end.db.credentials[u].version,
                            end.db.users[u].securityVersion))
         else None
  {
    LoginSnapshotIff(sys.db, begin.account);
    var start := Next(sys, begin);
    FlightWaits(start, between, begin.flight);
    FlightStays(start, between, begin.flight);
    VersionsInLockstep(start, between, u);
    hide Run, Renewals, LoginSnapshot;
  }

  lemma NoSnapshotNoLogin(sys: System, begin: Step, between: seq<Step>, finish: Step)
    requires begin.BeginLogin? && LegalRun(Next(sys, begin), between)
    requires match begin.account
      case None => true
      case Some(u) => u !in sys.db.users || u !in sys.db.credentials || !sys.db.users[u].active
    requires forall k | 0 <= k < |between| :: !Finishes(between[k], begin.flight)
    requires finish.FinishLogin? && finish.flight == begin.flight
    ensures LoginProceeds(Run(Next(sys, begin), between), finish) == None
  {
    LoginSnapshotIff(sys.db, begin.account);
    FlightStays(Next(sys, begin), between, begin.flight);
    hide Run, LoginSnapshot;
  }

  /**
   A login issues a session exactly when the account existed, was active and had a credential at its beginning, the
   password verified, the account is active at the end and its credential is at the version seen; the session issued is
   valid at once, for thirty minutes unless used and eight hours at most, and otherwise only the failure is recorded.
   */
  lemma LoginSucceedsIff(sys: System, begin: Step, between: seq<Step>, finish: Step)
    requires begin.BeginLogin? && LegalRun(Next(sys, begin), between)
    requires forall k | 0 <= k < |between| :: !Finishes(between[k], begin.flight)
    requires finish.FinishLogin? && finish.flight == begin.flight
    ensures var end := Run(Next(sys, begin), between); var after := DbAfter(end, finish);
      if begin.account.Some? && var u := begin.account.value;
         && u in sys.db.users && u in sys.db.credentials && sys.db.users[u].active
         && finish.verified
         && u in end.db.users && end.db.users[u].active
         && u in end.db.credentials && end.db.credentials[u].version == sys.db.credentials[u].version
      then
        var u, now := begin.account.value, finish.now;
        && finish.id in after.sessions
        && after.sessions[finish.id] ==
             S.Session(finish.id, u, S.Sha256(finish.bearer), S.Sha256(finish.csrf), end.db.users[u].securityVersion,
                       now, now, now, now + O.IDLE, now + O.ABSOLUTE, None, None, None, None)
        && |after.events| > 0 && after.events[|after.events| - 1] == LoginSucceeded(u, finish.id)
        && after.users == end.db.users && after.credentials == end.db.credentials && after.tokens == end.db.tokens
      else after == end.db.(events := end.db.events + [LoginFailed])
  {
    var end := Run(Next(sys, begin), between);
    hide Run, DbAfter, Next, LegalRun, LoginProceeds, Finishes;
    LoginLeaves(end, finish);
    hide S.Evicted, S.EvictionEvents;
    if begin.account.Some? && begin.account.value in sys.db.users && begin.account.value in sys.db.credentials
       && sys.db.users[begin.account.value].active {
      LoginProceedsIff(sys, begin, between, finish, begin.account.value);
    } else {
      NoSnapshotNoLogin(sys, begin, between, finish);
    }
  }

  // ---- password change --------------------------------------------------------------------------------------------

  /** The account behind a live session at the account's own version, if both are there. */
  lemma ChangeSnapshotIff(db: Db, bearer: nat, now: int, i: nat)
    requires DistinctBearers(db.sessions) && i in db.sessions && db.sessions[i].bearer == S.Sha256(bearer)
    ensures var r := db.sessions[i]; var u := r.user;
      ChangeSnapshot(db, bearer, now) ==
        if r.revokedAt == None && now < r.idleExpiresAt && now < r.absoluteExpiresAt
           && u in db.users && u in db.credentials && db.users[u].active
           && r.securityVersion == db.users[u].securityVersion
        then Some(Snapshot(u, db.credentials[u].hash, db.credentials[u].version, db.users[u].securityVersion))
        else None
  {
    O.FindsOnly(db.sessions, bearer, i);
    hide S.Find;
  }

  /** A session keeps its owner and version, and a used bearer finds it or nothing. */
  lemma {:induction false} SessionStays(sys: System, steps: seq<Step>, i: nat)
    requires Sound(sys) && LegalRun(sys, steps) && i in sys.db.sessions
    ensures var end := Run(sys, steps);
      && Sound(end)
      && i in end.db.sessions && SameIdentity(sys.db.sessions[i], end.db.sessions[i])
      && (forall j | j in end.db.sessions && end.db.sessions[j].bearer == sys.db.sessions[i].bearer :: j == i)
    decreases |steps|
  {
    if steps != [] {
      StepSound(sys, steps[0]);
      BearerAgain(sys, steps[0], i);
      hide DbAfter, FlightsAfter, Sound, Legal;
      var next := Next(sys, steps[0]);
      SessionStays(next, steps[1..], i);
      BearersAgain(next, steps[1..], sys.db.sessions[i].bearer, i);
    }
  }

  lemma BearerAgain(sys: System, step: Step, i: nat)
    requires Sound(sys) && Legal(sys, step) && i in sys.db.sessions
    ensures sys.db.sessions[i].bearer in Next(sys, step).used
    ensures var after := DbAfter(sys, step).sessions;
      forall j | j in after && after[j].bearer == sys.db.sessions[i].bearer :: j == i
  {
    StepBearers(sys, step, sys.db.sessions[i].bearer);
    hide DbAfter, FlightsAfter;
  }

  /** A used digest that only one session carries is carried by no other later. */
  lemma {:induction false} BearersAgain(sys: System, steps: seq<Step>, d: S.Digest, i: nat)
    requires Sound(sys) && LegalRun(sys, steps) && d in sys.used
    requires forall j | j in sys.db.sessions && sys.db.sessions[j].bearer == d :: j == i
    ensures var end := Run(sys, steps).db.sessions; forall j | j in end && end[j].bearer == d :: j == i
    decreases |steps|
  {
    if steps != [] {
      StepSound(sys, steps[0]);
      StepBearers(sys, steps[0], d);
      hide DbAfter, FlightsAfter, Sound, Legal;
      BearersAgain(Next(sys, steps[0]), steps[1..], d, i);
      assert Run(sys, steps) == Run(Next(sys, steps[0]), steps[1..]);
    }
  }

  /** What a successful change leaves: the new hash, both versions one higher, no unrevoked session, two events. */
  ghost predicate Changed(before: Db, after: Db, u: nat, hash: nat, now: int, reason: S.Reason)
    requires u in before.users && u in before.credentials
  {
    && after.credentials == before.credentials[u := Credential(hash, before.credentials[u].version + 1)]
    && after.users == before.users[u := User(before.users[u].active, before.users[u].securityVersion + 1)]
    && after.sessions.Keys == before.sessions.Keys
    && forall i | i in before.sessions ::
         after.sessions[i] ==
           if before.sessions[i].user == u && before.sessions[i].revokedAt == None
           then before.sessions[i].(revokedAt := Some(now), revokedReason := Some(reason)) else before.sessions[i]
  }

  lemma ApplyChangeLeaves(db: Db, u: nat, hash: nat, now: int)
    requires HasCredential(db, u)
    ensures var after := ApplyChange(db, u, hash, now);
      && Changed(db, after, u, hash, now, S.RevokeAll)
      && after.tokens == db.tokens
      && (forall i | i in db.sessions && db.sessions[i].user == u && db.sessions[i].revokedAt == None ::
            after.events == db.events + [PasswordChanged(u, None), EverySessionRevoked(u, S.RevokeAll)])
  {
    var events := ApplyChange(db, u, hash, now).events;
    forall i | i in db.sessions && db.sessions[i].user == u && db.sessions[i].revokedAt == None
      ensures events == db.events + [PasswordChanged(u, None), EverySessionRevoked(u, S.RevokeAll)]
    {
      assert S.Unrevoked(db.sessions, u, i);
    }
  }

  /** The account apply_password_change acts for, from the bearer and the versions and hash it is given. */
  lemma ChangeForIff(db: Db, bearer: nat, seen: Snapshot, now: int, i: nat)
    requires DistinctBearers(db.sessions) && i in db.sessions && db.sessions[i].bearer == S.Sha256(bearer)
    ensures var r := db.sessions[i]; var u := r.user;
      ChangeFor(db, bearer, seen, now) ==
        if && u in db.users && u in db.credentials && db.users[u].active
           && db.credentials[u] == Credential(seen.hash, seen.credentialVersion)
           && db.users[u].securityVersion == seen.securityVersion == r.securityVersion
           && r.revokedAt == None && now < r.idleExpiresAt && now < r.absoluteExpiresAt
        then Some(u) else None
  {
    O.FindsOnly(db.sessions, bearer, i);
    hide S.Find;
  }

  /** What the final transaction finds of a change that began on session i with a snapshot. */
  lemma ChangeProceedsIff(sys: System, begin: Step, between: seq<Step>, finish: Step, i: nat)
    requires begin.BeginChange? && Sound(sys) && Legal(sys, begin) && LegalRun(Next(sys, begin), between)
    requires forall k | 0 <= k < |between| :: !Finishes(between[k], begin.flight)
    requires finish.FinishChange? && finish.flight == begin.flight
    requires i in sys.db.sessions && sys.db.sessions[i].bearer == S.Sha256(begin.bearer)
    requires ChangeSnapshot(sys.db, begin.bearer, begin.now).Some?
    ensures var end, u := Run(Next(sys, begin), between), sys.db.sessions[i].user;
      && HasCredential(sys.db, u) && HasCredential(end.db, u)
      && i in end.db.sessions && end.db.sessions[i].user == u
      && (ChangeProceeds(end, finish).Some? <==>
            && finish.verified && end.db.users[u].active
            && end.db.credentials[u].version == sys.db.credentials[u].version
            && end.db.sessions[i].bearer == S.Sha256(begin.bearer) && end.db.sessions[i].revokedAt == None
            && finish.now < end.db.sessions[i].idleExpiresAt && finish.now < end.db.sessions[i].absoluteExpiresAt)
      && (ChangeProceeds(end, finish).Some? ==> ChangeProceeds(end, finish).value.user == u)
  {
    var start, u := Next(sys, begin), sys.db.sessions[i].user;
    ChangeSnapshotIff(sys.db, begin.bearer, begin.now, i);
    StepSound(sys, begin);
    SessionStays(start, between, i);
    FlightWaits(start, between, begin.flight);
    FlightStays(start, between, begin.flight);
    VersionsInLockstep(start, between, u);
    var end := Run(start, between);
    if end.db.sessions[i].bearer == S.Sha256(begin.bearer) {
      ChangeForIff(end.db, begin.bearer, start.flights[begin.flight].snapshot.value, finish.now, i);
    } else {
      O.FindsNone(end.db.sessions, begin.bearer);
    }
    hide Run, Renewals, ChangeSnapshot, LegalRun, Legal, ChangeFor, Sound, S.Find, DbAfter, RowsOk;
  }

  /** Without a snapshot the final transaction changes nothing, whatever ran in between. */
  lemma NoSnapshotNoChange(sys: System, begin: Step, between: seq<Step>, finish: Step)
    requires begin.BeginChange? && ChangeSnapshot(sys.db, begin.bearer, begin.now) == None
    requires LegalRun(Next(sys, begin), between)
    requires forall k | 0 <= k < |between| :: !Finishes(between[k], begin.flight)
    requires finish.FinishChange? && finish.flight == begin.flight
    ensures ChangeProceeds(Run(Next(sys, begin), between), finish) == None
  {
    FlightStays(Next(sys, begin), between, begin.flight);
    hide Run, ChangeSnapshot;
  }

  /**
   A password change begun on a session succeeds exactly when that session was live, its account active, with a
   credential and at the session's version then, the password verified, the account is active and its credential at the
   same version at the end, and the session is still unrotated and live; then the new hash stands, both versions are
   one higher and every session of the account is revoked, and otherwise nothing changes.
   */
  lemma ChangeSucceedsIff(sys: System, begin: Step, between: seq<Step>, finish: Step, i: nat)
    requires begin.BeginChange? && Sound(sys) && Legal(sys, begin) && LegalRun(Next(sys, begin), between)
    requires forall k | 0 <= k < |between| :: !Finishes(between[k], begin.flight)
    requires finish.FinishChange? && finish.flight == begin.flight
    requires i in sys.db.sessions && sys.db.sessions[i].bearer == S.Sha256(begin.bearer)
    ensures var end, r, u := Run(Next(sys, begin), between), sys.db.sessions[i], sys.db.sessions[i].user;
      var after := DbAfter(end, finish);
      if && r.revokedAt == None && begin.now < r.idleExpiresAt && begin.now < r.absoluteExpiresAt
         && u in sys.db.users && u in sys.db.credentials && sys.db.users[u].active
         && r.securityVersion == sys.db.users[u].securityVersion
         && finish.verified
         && u in end.db.users && end.db.users[u].active
         && u in end.db.credentials && end.db.credentials[u].version == sys.db.credentials[u].version
         && i in end.db.sessions && end.db.sessions[i].bearer == S.Sha256(begin.bearer)
         && end.db.sessions[i].revokedAt == None
         && finish.now < end.db.sessions[i].idleExpiresAt && finish.now < end.db.sessions[i].absoluteExpiresAt
      then
        && Changed(end.db, after, u, finish.hash, finish.now, S.RevokeAll) && after.tokens == end.db.tokens
        && after.events == end.db.events + [PasswordChanged(u, None), EverySessionRevoked(u, S.RevokeAll)]
      else after == end.db
  {
    var end, u := Run(Next(sys, begin), between), sys.db.sessions[i].user;
    ChangeSnapshotIff(sys.db, begin.bearer, begin.now, i);
    if ChangeSnapshot(sys.db, begin.bearer, begin.now).Some? {
      hide ChangeProceeds, ChangeSnapshot, Run, LegalRun, Legal, Sound, Changed, ApplyChange, Finishes;
      ChangeProceedsIff(sys, begin, between, finish, i);
      ApplyChangeLeaves(end.db, u, finish.hash, finish.now);
    } else {
      hide ChangeProceeds, ChangeSnapshot, Run, LegalRun, Legal, Sound, Changed, ApplyChange, Finishes;
      NoSnapshotNoChange(sys, begin, between, finish);
    }
  }

  /** A bearer that finds no session changes nothing. */
  lemma NoSessionNoChange(sys: System, begin: Step, between: seq<Step>, finish: Step)
    requires begin.BeginChange? && LegalRun(Next(sys, begin), between)
    requires forall i | i in sys.db.sessions :: sys.db.sessions[i].bearer != S.Sha256(begin.bearer)
    requires forall k | 0 <= k < |between| :: !Finishes(between[k], begin.flight)
    requires finish.FinishChange? && finish.flight == begin.flight
    ensures DbAfter(Run(Next(sys, begin), between), finish) == Run(Next(sys, begin), between).db
  {
    O.FindsNone(sys.db.sessions, begin.bearer);
    assert ChangeSnapshot(sys.db, begin.bearer, begin.now) == None;
    hide ChangeProceeds, ChangeSnapshot, Run, LegalRun, Finishes;
    NoSnapshotNoChange(sys, begin, between, finish);
  }

  // ---- the write-back after a login -------------------------------------------------------------------------------

  /** The write-back replaces the CSRF digest of the live session of an active account, and nothing else ever. */
  lemma WriteBackLeaves(sys: System, step: Step)
    requires step.WriteBack? && Sound(sys)
    ensures var db, after, now := sys.db, DbAfter(sys, step), step.now;
      && (forall i | i in db.sessions && db.sessions[i].bearer == S.Sha256(step.bearer) ::
            var r := db.sessions[i];
            if && r.user in db.users && db.users[r.user].active && r.securityVersion == db.users[r.user].securityVersion
               && r.revokedAt == None && now < r.idleExpiresAt && now < r.absoluteExpiresAt
            then after == db.(sessions := db.sessions[i := r.(csrf := S.Sha256(step.csrf))])
            else after == db)
      && ((forall i | i in db.sessions :: db.sessions[i].bearer != S.Sha256(step.bearer)) ==> after == db)
  {
    assert SessionEvents([]) == [];
    assert sys.db.events + [] == sys.db.events;
    if i :| i in sys.db.sessions && sys.db.sessions[i].bearer == S.Sha256(step.bearer) {
      O.FindsOnly(sys.db.sessions, step.bearer, i);
    } else {
      O.FindsNone(sys.db.sessions, step.bearer);
    }
    hide S.Find;
  }

  // ---- session calls and deactivation -----------------------------------------------------------------------------

  /** A session call makes its operation on the rows, unless it rotates to version zero, which the table refuses. */
  lemma SessionCallLeaves(sys: System, step: Step)
    requires step.SessionCall? || step.SetActive?
    ensures var db, after := sys.db, DbAfter(sys, step);
      && after.credentials == db.credentials && after.tokens == db.tokens && after.users.Keys == db.users.Keys
      && (match step
          case SessionCall(op) =>
            && after.users == db.users
            && after.sessions ==
                 (match op
                  case RotateTo(_, _, Some(selection), _, _, _) =>
                    if selection.version > 0 then S.RowsAfter(db.sessions, op) else db.sessions
                  case _ => S.RowsAfter(db.sessions, op))
          case SetActive(user, active, _) =>
            && after.sessions == db.sessions
            && forall u | u in db.users ::
                 after.users[u] == User(if u == user then active else db.users[u].active, db.users[u].securityVersion))
  {
    hide S.RowsAfter, S.EventsOf;
  }

  // ---- password reset ---------------------------------------------------------------------------------------------

  /**
   A request opens a token exactly for an active account and a new token and digest: fifteen minutes long, the account's
   other open tokens revoked; anything else changes nothing.
   */
  lemma RequestOpensIff(sys: System, step: Step)
    requires step.Request?
    ensures var db, after, now := sys.db, DbAfter(sys, step), step.now;
      if step.account.Some? && step.account.value in db.users && db.users[step.account.value].active
         && step.token !in db.tokens && (forall t | t in db.tokens :: db.tokens[t].digest != step.digest)
      then
        var u := step.account.value;
        && after == db.(tokens := after.tokens, events := db.events + [ResetRequested(u)])
        && after.tokens.Keys == db.tokens.Keys + {step.token}
        && after.tokens[step.token] == ResetToken(u, step.digest, now, now + RESET, None, None)
        && (forall t | t in db.tokens :: after.tokens[t] ==
              if db.tokens[t].user == u && db.tokens[t].consumedAt == None && db.tokens[t].revokedAt == None
              then db.tokens[t].(revokedAt := Some(now)) else db.tokens[t])
      else after == db
  {
  }

  /** What a completed reset leaves: a changed credential, its token consumed, the account's other open ones revoked. */
  ghost predicate Completed(db: Db, after: Db, i: nat, hash: nat, now: int)
    requires i in db.tokens && db.tokens[i].user in db.users && db.tokens[i].user in db.credentials
  {
    var u := db.tokens[i].user;
    && Changed(db, after, u, hash, now, S.PasswordReset)
    && after.tokens.Keys == db.tokens.Keys
    && after.tokens[i] == db.tokens[i].(consumedAt := Some(now))
    && (forall t | t in db.tokens && t != i :: after.tokens[t] ==
          if db.tokens[t].user == u && db.tokens[t].consumedAt == None && db.tokens[t].revokedAt == None
          then db.tokens[t].(revokedAt := Some(now)) else db.tokens[t])
    && after.events == db.events + [ResetCompleted(u), PasswordChanged(u, Some(S.PasswordReset))] +
         (if exists k :: k in db.sessions && db.sessions[k].user == u && db.sessions[k].revokedAt == None
          then [EverySessionRevoked(u, S.PasswordReset)] else [])
  }

  lemma CompleteResetLeaves(db: Db, i: nat, hash: nat, now: int)
    requires i in db.tokens && HasCredential(db, db.tokens[i].user)
    requires db.tokens[i].consumedAt == None && db.tokens[i].revokedAt == None
    ensures Completed(db, CompleteReset(db, i, hash, now), i, hash, now)
  {
  }

  /** The token a digest redeems, if its columns allow it. */
  lemma RedeemableIff(db: Db, digest: S.Digest, now: int)
    requires TokensOk(db.tokens)
    ensures forall i | i in db.tokens && db.tokens[i].digest == digest ::
      Redeemable(db, digest, now) ==
        if && db.tokens[i].consumedAt == None && db.tokens[i].revokedAt == None && now < db.tokens[i].expiresAt
           && db.tokens[i].user in db.users && db.tokens[i].user in db.credentials
        then Some(i) else None
    ensures (forall i | i in db.tokens :: db.tokens[i].digest != digest) ==> Redeemable(db, digest, now) == None
  {
    forall i | i in db.tokens && db.tokens[i].digest == digest && Open(db.tokens[i]) && now < db.tokens[i].expiresAt
      ensures Redeems(db, digest, now, i)
    {
    }
  }

  /**
   A digest completes a reset exactly when a token carries it that is neither consumed nor revoked nor expired, for an
   account with a credential; otherwise nothing changes.
   */
  lemma ResetCompletesIff(sys: System, step: Step)
    requires step.Complete? && TokensOk(sys.db.tokens)
    ensures var db, after, now := sys.db, DbAfter(sys, step), step.now;
      && (forall i | i in db.tokens && db.tokens[i].digest == step.digest ::
            if && db.tokens[i].consumedAt == None && db.tokens[i].revokedAt == None && now < db.tokens[i].expiresAt
               && db.tokens[i].user in db.users && db.tokens[i].user in db.credentials
            then Completed(db, after, i, step.hash, now)
            else after == db)
      && ((forall i | i in db.tokens :: db.tokens[i].digest != step.digest) ==> after == db)
  {
    var db := sys.db;
    RedeemableIff(db, step.digest, step.now);
    hide Redeemable, CompleteReset, Completed, TokensOk;
    if Redeemable(db, step.digest, step.now).Some? {
      forall i | i in db.tokens && db.tokens[i].digest == step.digest
        ensures Completed(db, CompleteReset(db, i, step.hash, step.now), i, step.hash, step.now)
      {
        CompleteResetLeaves(db, i, step.hash, step.now);
      }
    }
  }

  /** Another request for the account, or a completion with the digest. */
  predicate Interferes(step: Step, user: nat, digest: S.Digest) {
    (step.Request? && step.account == Some(user)) || (step.Complete? && step.digest == digest)
  }

  lemma TokenUntouched(sys: System, step: Step, i: nat)
    requires TokensOk(sys.db.tokens) && i in sys.db.tokens
    requires sys.db.tokens[i].consumedAt == None && sys.db.tokens[i].revokedAt == None
    requires !Interferes(step, sys.db.tokens[i].user, sys.db.tokens[i].digest)
    ensures i in DbAfter(sys, step).tokens && DbAfter(sys, step).tokens[i] == sys.db.tokens[i]
  {
    StepTokens(sys, step);
    RedeemableIsOpen(sys.db, if step.Complete? then step.digest else S.Sha256(0), Now(step));
    hide DbAfter, Redeemable;
  }

  lemma {:induction false} TokenWaits(sys: System, steps: seq<Step>, i: nat)
    requires TokensOk(sys.db.tokens) && i in sys.db.tokens
    requires sys.db.tokens[i].consumedAt == None && sys.db.tokens[i].revokedAt == None
    requires forall k | 0 <= k < |steps| :: !Interferes(steps[k], sys.db.tokens[i].user, sys.db.tokens[i].digest)
    ensures i in Run(sys, steps).db.tokens && Run(sys, steps).db.tokens[i] == sys.db.tokens[i]
    decreases |steps|
  {
    if steps != [] {
      assert !Interferes(steps[0], sys.db.tokens[i].user, sys.db.tokens[i].digest);
      assert forall k | 0 <= k < |steps| - 1 :: steps[1..][k] == steps[k + 1];
      TokenUntouched(sys, steps[0], i);
      StepKeepsTokens(sys, steps[0]);
      hide DbAfter, TokensOk, Interferes, FlightsAfter;
      TokenWaits(Next(sys, steps[0]), steps[1..], i);
    }
  }

  /**
   A digest requested at some time completes no reset from fifteen minutes later on, whatever runs between; before that
   it completes one for any account with a credential, unless another request for the account or a completion with the
   digest came first.
   */
  lemma ResetWindow(sys: System, request: Step, between: seq<Step>, complete: Step)
    requires TokensOk(sys.db.tokens) && request.Request? && complete.Complete? && complete.digest == request.digest
    requires request.account.Some? && request.account.value in sys.db.users
    requires sys.db.users[request.account.value].active
    requires request.token !in sys.db.tokens
    requires forall t | t in sys.db.tokens :: sys.db.tokens[t].digest != request.digest
    ensures var u, end := request.account.value, Run(Next(sys, request), between);
      var after := DbAfter(end, complete);
      && (complete.now >= request.now + RESET ==> after == end.db)
      && ((forall k | 0 <= k < |between| :: !Interferes(between[k], u, request.digest)) ==>
            if complete.now < request.now + RESET && u in sys.db.credentials
            then && request.token in end.db.tokens && end.db.tokens[request.token].user == u
                 && u in end.db.users && u in end.db.credentials
                 && Completed(end.db, after, request.token, complete.hash, complete.now)
            else after == end.db)
  {
    var start, u := Next(sys, request), request.account.value;
    RequestOpensIff(sys, request);
    StepKeepsTokens(sys, request);
    TokensStayOk(start, between);
    AccountsStay(start, between, u);
    var end := Run(start, between);
    hide Run, TokensOk, Completed, Interferes, DbAfter;
    ResetCompletesIff(end, complete);
    if forall k | 0 <= k < |between| :: !Interferes(between[k], u, request.digest) {
      TokenWaits(start, between, request.token);
    }
  }
}
