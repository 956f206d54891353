/**
 The credential protocol as it runs: the database functions statement by statement, and the service's
 transactions, each proved to be one step of the protocol. Requests in flight belong to concurrent callers.
 */
module CredentialService {
  import opened Prelude
  import S = Sessions
  import opened SessionInvariants
  import opened Credentials
  import opened CredentialHistory
  import opened CredentialOutcomes
  import opened ResetTokens
  import opened SessionStores
  import SS = SessionService

  /** A digest redeems at most one token, so finding one that redeems settles what the reset completes with. */
  lemma OnlyRedeemable(db: Db, digest: S.Digest, now: int)
    requires TokensOk(db.tokens)
    ensures forall i | Redeems(db, digest, now, i) ::
      Redeemable(db, digest, now) == if HasCredential(db, db.tokens[i].user) then Some(i) else None
    ensures (forall i :: !Redeems(db, digest, now, i)) ==> Redeemable(db, digest, now) == None
  {
  }

  class CredentialDatabase {
    var users: map<nat, User>
    var credentials: map<nat, Credential>
    var sessions: S.Rows
    var tokens: map<nat, ResetToken>
    var events: seq<Event>

    ghost function Contents(): Db
      reads this
    {
      Db(users, credentials, sessions, tokens, events)
    }

    method FindSession(bearer: nat) returns (found: Option<nat>)
      requires DistinctBearers(sessions)
      ensures found == S.Find(sessions, S.Sha256(bearer))
    {
      if i :| i in sessions && sessions[i].bearer == S.Sha256(bearer) {
        assert S.Holds(sessions, S.Sha256(bearer), i);
        found := Some(i);
      } else {
        found := None;
      }
    }

    method ConfirmPasswordAuthentication(s: Snapshot) returns (confirmed: bool)
      ensures confirmed <==> Confirmed(Contents(), s)
    {
      confirmed := s.user in users && s.user in credentials && users[s.user].active
        && credentials[s.user].version == s.credentialVersion
        && users[s.user].securityVersion == s.securityVersion
        && credentials[s.user].hash == s.hash;
    }

    /** The session issue a confirmed login makes in its own transaction: the session service over this table. */
    method IssueSession(user: nat, securityVersion: nat, id: nat, bearer: nat, csrf: nat, now: int, ghost clock: int)
      returns (issued: S.Session)
      requires RowsOk(sessions, clock) && DistinctBearers(sessions) && AllPositive(sessions) && clock <= now
      requires user in users && id !in sessions && forall i | i in sessions :: sessions[i].bearer != S.Sha256(bearer)
      modifies this`sessions, this`events
      ensures Contents() == RunSession(old(Contents()), S.Op.Issue(user, securityVersion, id, bearer, csrf, now))
      ensures issued == S.Fresh(id, user, bearer, csrf, securityVersion, now)
    {
      ghost var op := S.Op.Issue(user, securityVersion, id, bearer, csrf, now);
      ghost var before := S.State(sessions, []);
      hide RowsOk, DistinctBearers, AllPositive, S.RowsAfter, S.EventsOf, S.Fresh;
      var table := new SS.PostgresSessionStore(sessions, Accounts(users.Keys, map[]));
      var service := new SS.SessionService.Over(SS.Postgres(table));
      var refused;
      issued, refused := service.IssueRows(user, securityVersion, id, bearer, csrf, now, before, clock);
      assert [] + S.EventsOf(sessions, op) == S.EventsOf(sessions, op);
      events := events + SessionEvents(table.events);
      sessions := table.rows;
    }

    /** The three updates a new credential makes, and whether they revoked any session. */
    method RenewCredential(user: nat, hash: nat, now: int, reason: S.Reason) returns (revoked: bool)
      requires HasCredential(Contents(), user)
      modifies this`users, this`credentials, this`sessions
      ensures Contents() == NewCredential(old(Contents()), user, hash, now, reason)
      ensures revoked <==> exists i :: i in old(sessions) && S.Unrevoked(old(sessions), user, i)
    {
      credentials := credentials[user := Credential(hash, credentials[user].version + 1)];
      users := users[user := users[user].(securityVersion := users[user].securityVersion + 1)];
      revoked := exists i :: i in sessions && S.Unrevoked(sessions, user, i);
      sessions := map i | i in sessions ::
        if sessions[i].user == user && sessions[i].revokedAt == None then S.Revoke(sessions[i], now, reason)
        else sessions[i];
    }

    /**
     apply_password_change: find the session's owner, recheck under locks, then renew, revoke and audit; None changes
     nothing.
     */
    method ApplyPasswordChange(bearer: nat, seen: Snapshot, hash: nat, now: int) returns (changed: Option<nat>)
      requires DistinctBearers(sessions)
      modifies this
      ensures changed == ChangeFor(old(Contents()), bearer, seen, now)
      ensures forall i | i in old(sessions) && old(sessions)[i].bearer == S.Sha256(bearer) ::
        var r := old(sessions)[i];
        changed == if && r.user in old(users) && r.user in old(credentials) && old(users)[r.user].active
                      && old(credentials)[r.user] == Credential(seen.hash, seen.credentialVersion)
                      && old(users)[r.user].securityVersion == seen.securityVersion == r.securityVersion
                      && r.revokedAt == None && now < r.idleExpiresAt && now < r.absoluteExpiresAt
                   then Some(r.user) else None
      ensures Contents() ==
        if changed.Some? then ApplyChange(old(Contents()), changed.value, hash, now) else old(Contents())
    {
      forall i | i in sessions && sessions[i].bearer == S.Sha256(bearer) {
        ChangeForIff(Contents(), bearer, seen, now, i);
      }
      var found := FindSession(bearer);
      if found == None {
        return None;
      }
      var r := sessions[found.value];
      var confirmed := ConfirmPasswordAuthentication(seen.(user := r.user));
      if !confirmed || !Live(r, now) || r.securityVersion != seen.securityVersion {
        return None;
      }
      var revoked := RenewCredential(r.user, hash, now, S.RevokeAll);
      events := events + [PasswordChanged(r.user, None)];
      if revoked {
        events := events + [EverySessionRevoked(r.user, S.RevokeAll)];
      }
      changed := Some(r.user);
    }

    method RequestPasswordReset(account: Option<nat>, token: nat, digest: S.Digest, now: int) returns (accepted: bool)
      modifies this`tokens, this`events
      ensures accepted <==> Opens(old(Contents()), account, token, digest)
      ensures accepted <==> && account.Some? && account.value in users && users[account.value].active
                            && token !in old(tokens) && forall t | t in old(tokens) :: old(tokens)[t].digest != digest
      ensures Contents() ==
        if accepted then RequestReset(old(Contents()), account.value, token, digest, now) else old(Contents())
    {
      if account == None || account.value !in users || !users[account.value].active {
        return false;
      }
      var user := account.value;
      var settled := RevokeOpen(tokens, user, None, now);
      if token in settled || DigestTaken(settled, digest) {
        SameDigests(tokens, user, None, now, digest);
        return false;
      }
      SameDigests(tokens, user, None, now, digest);
      tokens := settled[token := ResetToken(user, digest, now, now + RESET_LIFETIME, None, None)];
      events := events + [ResetRequested(user)];
      accepted := true;
    }

    method CompletePasswordReset(digest: S.Digest, hash: nat, now: int) returns (completed: bool)
      requires TokensOk(tokens)
      modifies this
      ensures completed <==>
        exists i :: i in old(tokens) && old(tokens)[i].digest == digest
          && old(tokens)[i].consumedAt == None && old(tokens)[i].revokedAt == None && now < old(tokens)[i].expiresAt
          && old(tokens)[i].user in old(users) && old(tokens)[i].user in old(credentials)
      ensures var found := Redeemable(old(Contents()), digest, now);
        && (completed <==> found.Some?)
        && Contents() == if completed then CompleteReset(old(Contents()), found.value, hash, now) else old(Contents())
    {
      hide RevokeOpen, S.AfterRevokeEvery, TokensOk, Redeemable;
      OnlyRedeemable(Contents(), digest, now);
      if i :| i in tokens && tokens[i].digest == digest && Open(tokens[i]) && now < tokens[i].expiresAt {
        var user := tokens[i].user;
        if user !in credentials || user !in users {
          assert Redeems(Contents(), digest, now, i);
          return false;
        }
        assert Redeems(Contents(), digest, now, i);
        tokens := tokens[i := tokens[i].(consumedAt := Some(now))];
        tokens := RevokeOpen(tokens, user, Some(i), now);
        var revoked := RenewCredential(user, hash, now, S.PasswordReset);
        events := events + [ResetCompleted(user), PasswordChanged(user, Some(S.PasswordReset))];
        if revoked {
          events := events + [EverySessionRevoked(user, S.PasswordReset)];
        }
        completed := true;
      } else {
        completed := false;
      }
    }
  }

  lemma SameDigests(tokens: map<nat, ResetToken>, user: nat, spared: Option<nat>, now: int, d: S.Digest)
    ensures RevokeOpen(tokens, user, spared, now).Keys == tokens.Keys
    ensures DigestTaken(RevokeOpen(tokens, user, spared, now), d) <==> DigestTaken(tokens, d)
  {
    if DigestTaken(tokens, d) {
      var i :| i in tokens && tokens[i].digest == d;
      assert RevokeOpen(tokens, user, spared, now)[i].digest == d;
    }
  }

  /** Everything the protocol's steps keep. */
  ghost predicate Kept(sys: System) {
    Sound(sys) && Owners(sys) && Current(sys.db.users, sys.db.sessions) && TokensOk(sys.db.tokens)
      && AllPositive(sys.db.sessions)
  }

  lemma CallKeepsPositive(rows: S.Rows, clock: int, op: S.Op)
    requires RowsOk(rows, clock) && clock <= op.now && AllPositive(rows) && !Refused(op)
    ensures AllPositive(S.RowsAfter(rows, op))
  {
    hide RowsOk, S.Evicted;
    if !op.Issue? && !op.RevokeEvery? && S.Replacement(rows, op).Some? {
      ReplacementEvolves(rows, clock, op);
    }
  }

  lemma StepKeepsPositive(sys: System, step: Step)
    requires Sound(sys) && Legal(sys, step) && AllPositive(sys.db.sessions)
    ensures AllPositive(DbAfter(sys, step).sessions)
  {
    hide DbAfter, EffectOf, S.RowsAfter, RowsOk, DistinctBearers;
    StepTables(sys, step);
    if EffectOf(sys, step).Calls? {
      StepCall(sys, step);
      CallNotRefused(sys, step);
      CallKeepsPositive(sys.db.sessions, sys.clock, EffectOf(sys, step).op);
    }
  }

  lemma CallNotRefused(sys: System, step: Step)
    ensures EffectOf(sys, step).Calls? ==> !Refused(EffectOf(sys, step).op)
  {
  }

  lemma BearerUnused(sys: System, bearer: nat)
    requires Sound(sys) && S.Sha256(bearer) !in sys.used
    ensures forall i | i in sys.db.sessions :: sys.db.sessions[i].bearer != S.Sha256(bearer)
  {
  }

  lemma StepKept(sys: System, step: Step)
    requires Kept(sys) && Legal(sys, step)
    ensures Kept(Next(sys, step))
  {
    hide Sound, Owners, Current, TokensOk, AllPositive, DbAfter, FlightsAfter, Legal;
    StepSound(sys, step);
    StepOwners(sys, step);
    StepCurrent(sys, step);
    StepKeepsTokens(sys, step);
    StepKeepsPositive(sys, step);
  }

  class PasswordAuthenticationService {
    const db: CredentialDatabase

    /** Snapshots held by callers between their transactions. */
    var flights: map<nat, Flight>

    /** The protocol state this service has reached; every transaction advances it by its own step. */
    ghost var system: System

    ghost predicate Valid()
      reads this, db
    {
      db.Contents() == system.db && flights == system.flights && Kept(system)
    }

    constructor (db: CredentialDatabase, ghost clock: int, ghost used: set<S.Digest>)
      requires Kept(System(db.Contents(), map[], clock, used))
      ensures Valid() && this.db == db && system == System(db.Contents(), map[], clock, used)
    {
      hide Kept;
      this.db := db;
      flights := map[];
      system := System(db.Contents(), map[], clock, used);
    }

    ghost method Advance(step: Step)
      requires Legal(system, step) && Kept(system)
      requires db.Contents() == DbAfter(system, step) && flights == FlightsAfter(system, step)
      modifies this`system
      ensures Valid() && system == Next(old(system), step)
    {
      hide Kept, Legal, DbAfter, FlightsAfter;
      StepKept(system, step);
      system := Next(system, step);
    }

    /** The snapshot transaction of a login. */
    method BeginLogin(flight: nat, account: Option<nat>, now: int)
      requires Valid() && Legal(system, Step.BeginLogin(flight, account, now))
      modifies this
      ensures Valid() && system == Next(old(system), Step.BeginLogin(flight, account, now))
    {
      var snapshot: Option<Snapshot> := None;
      if account.Some? && account.value in db.users && account.value in db.credentials
        && db.users[account.value].active {
        var u := account.value;
        snapshot := Some(Snapshot(u, db.credentials[u].hash, db.credentials[u].version, db.users[u].securityVersion));
      }
      flights := flights[flight := Login(snapshot)];
      Advance(Step.BeginLogin(flight, account, now));
    }

    /** The snapshot transaction of a password change. */
    method BeginChange(flight: nat, bearer: nat, now: int)
      requires Valid() && Legal(system, Step.BeginChange(flight, bearer, now))
      modifies this
      ensures Valid() && system == Next(old(system), Step.BeginChange(flight, bearer, now))
    {
      var snapshot: Option<Snapshot> := None;
      var found := db.FindSession(bearer);
      if found.Some? {
        var r := db.sessions[found.value];
        if Live(r, now) && r.user in db.users && r.user in db.credentials && db.users[r.user].active
           && r.securityVersion == db.users[r.user].securityVersion {
          snapshot := Some(Snapshot(r.user, db.credentials[r.user].hash, db.credentials[r.user].version,
                                    db.users[r.user].securityVersion));
        }
      }
      flights := flights[flight := Change(bearer, snapshot)];
      Advance(Step.BeginChange(flight, bearer, now));
    }

    /** The final transaction of a password change, after verification and hashing outside any transaction. */
    method FinishChange(flight: nat, verified: bool, hash: nat, now: int) returns (changed: bool)
      requires Valid() && Legal(system, Step.FinishChange(flight, verified, hash, now))
      modifies this, db
      ensures Valid() && system == Next(old(system), Step.FinishChange(flight, verified, hash, now))
      ensures changed <==> ChangeProceeds(old(system), Step.FinishChange(flight, verified, hash, now)).Some?
    {
      changed := false;
      if verified && flight in flights && flights[flight].Change? && flights[flight].snapshot.Some? {
        var account := db.ApplyPasswordChange(flights[flight].bearer, flights[flight].snapshot.value, hash, now);
        changed := account.Some?;
      }
      flights := flights - {flight};
      Advance(Step.FinishChange(flight, verified, hash, now));
    }

    /** The HTTP login's last transaction: reread the live session and write it back with the stable CSRF digest. */
    method WriteBack(bearer: nat, csrf: nat, now: int) returns (written: bool)
      requires Valid() && Legal(system, Step.WriteBack(bearer, csrf, now))
      modifies this, db
      ensures Valid() && system == Next(old(system), Step.WriteBack(bearer, csrf, now))
      ensures written ==> OwnerVersion(old(system).db, bearer).Some?
    {
      written := false;
      var found := db.FindSession(bearer);
      if found.Some? {
        var r := db.sessions[found.value];
        if r.user in db.users && db.users[r.user].active && S.IsValid(r, now, db.users[r.user].securityVersion) {
          db.sessions := db.sessions[r.id := r.(csrf := S.Sha256(csrf))];
          written := true;
        }
      }
      assert SessionEvents([]) == [];
      Advance(Step.WriteBack(bearer, csrf, now));
    }

    /** The final transaction of a login: recheck, then issue a session, or record the failure. */
    method FinishLogin(flight: nat, verified: bool, id: nat, bearer: nat, csrf: nat, now: int)
        returns (issued: Option<S.Session>)
      requires Valid() && Legal(system, Step.FinishLogin(flight, verified, id, bearer, csrf, now))
      modifies this, db
      ensures Valid() && system == Next(old(system), Step.FinishLogin(flight, verified, id, bearer, csrf, now))
      ensures var s := LoginProceeds(old(system), Step.FinishLogin(flight, verified, id, bearer, csrf, now));
        issued == if s.Some? then Some(S.Fresh(id, s.value.user, bearer, csrf, s.value.securityVersion, now)) else None
    {
      ghost var step := Step.FinishLogin(flight, verified, id, bearer, csrf, now);
      issued := None;
      var current := false;
      if verified && flight in flights && flights[flight].Login? && flights[flight].snapshot.Some? {
        current := db.ConfirmPasswordAuthentication(flights[flight].snapshot.value);
      }
      if current {
        var s := flights[flight].snapshot.value;
        BearerUnused(system, bearer);
        var r := db.IssueSession(s.user, s.securityVersion, id, bearer, csrf, now, system.clock);
        issued := Some(r);
        db.events := db.events + [LoginSucceeded(s.user, id)];
      } else {
        db.events := db.events + [LoginFailed];
      }
      flights := flights - {flight};
      hide S.AfterIssue;
      Advance(step);
    }
  }
}
