/**
 The optimistic credential protocol: logins and password changes take a snapshot in one transaction, hash
 outside any, and recheck in another, while resets and session operations run in between. Each database
 transaction is one step; steps of any number of requests interleave freely.
 */
module Credentials {
  import opened Prelude
  import S = Sessions

  datatype User = User(active: bool, securityVersion: nat)

  datatype Credential = Credential(hash: nat, version: nat)

  datatype ResetToken = ResetToken(
    user: nat, digest: S.Digest, createdAt: int, expiresAt: int, consumedAt: Option<int>, revokedAt: Option<int>)

  const RESET_LIFETIME := 15 * S.MINUTE

  datatype Event =
    | PasswordChanged(user: nat, cause: Option<S.Reason>)
    | ResetRequested(user: nat)
    | ResetCompleted(user: nat)
    | EverySessionRevoked(user: nat, reason: S.Reason)
    | LoginSucceeded(user: nat, session: nat)
    | LoginFailed
    | OfSession(event: S.Event)

  datatype Db = Db(
    users: map<nat, User>, credentials: map<nat, Credential>, sessions: S.Rows,
    tokens: map<nat, ResetToken>, events: seq<Event>)

  datatype Snapshot = Snapshot(user: nat, hash: nat, credentialVersion: nat, securityVersion: nat)

  /** A request between its snapshot and its final transaction. */
  datatype Flight =
    | Login(snapshot: Option<Snapshot>)
    | Change(bearer: nat, snapshot: Option<Snapshot>)

  // ---- database functions -----------------------------------------------------------------------------

  predicate HasCredential(db: Db, user: nat) {
    user in db.users && user in db.credentials
  }

  function SnapshotOf(db: Db, user: nat): Snapshot
    requires HasCredential(db, user)
  {
    Snapshot(user, db.credentials[user].hash, db.credentials[user].version, db.users[user].securityVersion)
  }

  /** password_authentication_snapshot: the active account with this address, if it has a credential. */
  function LoginSnapshot(db: Db, account: Option<nat>): Option<Snapshot> {
    match account
    case Some(u) => if HasCredential(db, u) && db.users[u].active then Some(SnapshotOf(db, u)) else None
    case None => None
  }

  predicate Live(r: S.Session, now: int) {
    r.revokedAt == None && now < r.idleExpiresAt && now < r.absoluteExpiresAt
  }

  /** password_change_snapshot: the account behind a live, current session. */
  ghost function ChangeSnapshot(db: Db, bearer: nat, now: int): Option<Snapshot> {
    match S.Find(db.sessions, S.Sha256(bearer))
    case Some(i) =>
      var r := db.sessions[i];
      if Live(r, now) && HasCredential(db, r.user) && db.users[r.user].active
         && r.securityVersion == db.users[r.user].securityVersion
      then Some(SnapshotOf(db, r.user)) else None
    case None => None
  }

  /** confirm_password_authentication: the account is active and still exactly as the snapshot saw it. */
  predicate Confirmed(db: Db, s: Snapshot) {
    HasCredential(db, s.user) && db.users[s.user].active && SnapshotOf(db, s.user) == s
  }

  /** What changing a credential does to every table it touches. */
  function NewCredential(db: Db, user: nat, hash: nat, now: int, reason: S.Reason): Db
    requires HasCredential(db, user)
  {
    db.(credentials := db.credentials[user := Credential(hash, db.credentials[user].version + 1)],
        users := db.users[user := db.users[user].(securityVersion := db.users[user].securityVersion + 1)],
        sessions := S.AfterRevokeEvery(db.sessions, user, now, reason))
  }

  function RevocationEvent(db: Db, user: nat, reason: S.Reason): seq<Event> {
    if exists i :: i in db.sessions && S.Unrevoked(db.sessions, user, i)
      then [EverySessionRevoked(user, reason)] else []
  }

  /**
   The account apply_password_change acts for, when every recheck under its locks passes: it is the owner of the
   session the bearer finds now, and only the snapshot's versions and hash are compared with it.
   */
  ghost function ChangeFor(db: Db, bearer: nat, s: Snapshot, now: int): Option<nat> {
    match S.Find(db.sessions, S.Sha256(bearer))
    case Some(i) =>
      var r := db.sessions[i];
      if Confirmed(db, s.(user := r.user)) && Live(r, now) && r.securityVersion == s.securityVersion
        then Some(r.user) else None
    case None => None
  }

  /** apply_password_change */
  function ApplyChange(db: Db, user: nat, hash: nat, now: int): Db
    requires HasCredential(db, user)
  {
    NewCredential(db, user, hash, now, S.RevokeAll)
      .(events := db.events + [PasswordChanged(user, None)] + RevocationEvent(db, user, S.RevokeAll))
  }

  predicate Open(t: ResetToken) {
    t.consumedAt == None && t.revokedAt == None
  }

  /** Revoke one user's open tokens, all but one if one is spared. */
  function RevokeOpen(tokens: map<nat, ResetToken>, user: nat, spared: Option<nat>, now: int): map<nat, ResetToken> {
    map i | i in tokens ::
      if tokens[i].user == user && Some(i) != spared && Open(tokens[i])
        then tokens[i].(revokedAt := Some(now)) else tokens[i]
  }

  predicate DigestTaken(tokens: map<nat, ResetToken>, d: S.Digest) {
    exists i :: i in tokens && tokens[i].digest == d
  }

  /** Whether a reset request opens a token: an active account, and no duplicate id or digest to abort it. */
  predicate Opens(db: Db, account: Option<nat>, token: nat, digest: S.Digest) {
    && account.Some? && account.value in db.users && db.users[account.value].active
    && token !in db.tokens && !DigestTaken(db.tokens, digest)
  }

  /** request_password_reset */
  function RequestReset(db: Db, user: nat, token: nat, digest: S.Digest, now: int): Db {
    db.(tokens := RevokeOpen(db.tokens, user, None, now)
                    [token := ResetToken(user, digest, now, now + RESET_LIFETIME, None, None)],
        events := db.events + [ResetRequested(user)])
  }

  ghost predicate Redeems(db: Db, digest: S.Digest, now: int, i: nat) {
    i in db.tokens && db.tokens[i].digest == digest && Open(db.tokens[i]) && now < db.tokens[i].expiresAt
  }

  /** The token a reset completes with; a missing credential aborts the transaction. */
  ghost function Redeemable(db: Db, digest: S.Digest, now: int): Option<nat> {
    if exists i :: Redeems(db, digest, now, i) && HasCredential(db, db.tokens[i].user) then
      var i :| Redeems(db, digest, now, i) && HasCredential(db, db.tokens[i].user);
      Some(i)
    else None
  }

  /** complete_password_reset with a redeemable token. */
  function CompleteReset(db: Db, token: nat, hash: nat, now: int): Db
    requires token in db.tokens && HasCredential(db, db.tokens[token].user)
  {
    var u := db.tokens[token].user;
    NewCredential(db, u, hash, now, S.PasswordReset)
      .(tokens := RevokeOpen(db.tokens[token := db.tokens[token].(consumedAt := Some(now))], u, Some(token), now),
        events := db.events + [ResetCompleted(u), PasswordChanged(u, Some(S.PasswordReset))]
                  + RevocationEvent(db, u, S.PasswordReset))
  }

  function SessionEvents(events: seq<S.Event>): seq<Event> {
    seq(|events|, i requires 0 <= i < |events| => OfSession(events[i]))
  }

  // ---- steps ---------------------------------------------------------------------------------------------

  datatype Step =
    | BeginLogin(flight: nat, account: Option<nat>, now: int)
    | FinishLogin(flight: nat, verified: bool, id: nat, bearer: nat, csrf: nat, now: int)
    | WriteBack(bearer: nat, csrf: nat, now: int)
    | BeginChange(flight: nat, bearer: nat, now: int)
    | FinishChange(flight: nat, verified: bool, hash: nat, now: int)
    | Request(account: Option<nat>, token: nat, digest: S.Digest, now: int)
    | Complete(digest: S.Digest, hash: nat, now: int)
    | SessionCall(op: S.Op)
    | SetActive(user: nat, active: bool, now: int)

  function Now(step: Step): int {
    match step
    case SessionCall(op) => op.now
    case BeginLogin(_, _, now) => now
    case FinishLogin(_, _, _, _, _, now) => now
    case WriteBack(_, _, now) => now
    case BeginChange(_, _, now) => now
    case FinishChange(_, _, _, now) => now
    case Request(_, _, _, now) => now
    case Complete(_, _, now) => now
    case SetActive(_, _, now) => now
  }

  /** The database, the requests in flight, the latest clock reading and every bearer digest ever stored. */
  datatype System = System(db: Db, flights: map<nat, Flight>, clock: int, used: set<S.Digest>)

  predicate InFlight(sys: System, flight: nat, login: bool) {
    flight in sys.flights && sys.flights[flight].snapshot.Some? && sys.flights[flight].Login? == login
  }

  /** The snapshot a finishing login proceeds on: verified and still confirmed. */
  function LoginProceeds(sys: System, step: Step): Option<Snapshot>
    requires step.FinishLogin?
  {
    if step.verified && InFlight(sys, step.flight, true) && Confirmed(sys.db, sys.flights[step.flight].snapshot.value)
    then sys.flights[step.flight].snapshot else None
  }

  /**
   What a finishing password change succeeds on: its snapshot's versions and hash, for the account it then acts for.
   */
  ghost function ChangeProceeds(sys: System, step: Step): Option<Snapshot>
    requires step.FinishChange?
  {
    if step.verified && InFlight(sys, step.flight, false) then
      var f := sys.flights[step.flight];
      match ChangeFor(sys.db, f.bearer, f.snapshot.value, step.now)
      case Some(u) => Some(f.snapshot.value.(user := u))
      case None => None
    else None
  }

  function IssueOp(s: Snapshot, step: Step): S.Op
    requires step.FinishLogin?
  {
    S.Op.Issue(s.user, s.securityVersion, step.id, step.bearer, step.csrf, step.now)
  }

  ghost function RunSession(db: Db, op: S.Op): Db {
    db.(sessions := S.RowsAfter(db.sessions, op), events := db.events + SessionEvents(S.EventsOf(db.sessions, op)))
  }

  /**
   A rotation the table's CHECK on the selected version refuses: it raises, and its transaction changes nothing. (One
   to another user's membership is refused as well; here it is one more thing that may happen.)
   */
  predicate Refused(op: S.Op) {
    op.RotateTo? && op.selection.Some? && op.selection.value.version == 0
  }

  /** The version a bearer's owner is at, as session_identity reports it. */
  ghost function OwnerVersion(db: Db, bearer: nat): Option<nat> {
    match S.Find(db.sessions, S.Sha256(bearer))
    case Some(i) =>
      var u := db.sessions[i].user;
      if u in db.users && db.users[u].active then Some(db.users[u].securityVersion) else None
    case None => None
  }

  ghost function DbAfter(sys: System, step: Step): Db {
    var db := sys.db;
    match step
    case BeginLogin(_, _, _) => db
    case FinishLogin(_, _, id, _, _, _) =>
      (match LoginProceeds(sys, step)
       case Some(s) =>
         var issued := RunSession(db, IssueOp(s, step));
         issued.(events := issued.events + [LoginSucceeded(s.user, id)])
       case None => db.(events := db.events + [LoginFailed]))
    case WriteBack(bearer, csrf, now) =>
      (match OwnerVersion(db, bearer)
       case Some(v) => RunSession(db, S.WriteCsrf(bearer, v, csrf, now))
       case None => db)
    case BeginChange(_, _, _) => db
    case FinishChange(_, _, hash, now) =>
      (match ChangeProceeds(sys, step)
       case Some(s) => ApplyChange(db, s.user, hash, now)
       case None => db)
    case Request(account, token, digest, now) =>
      if Opens(db, account, token, digest) then RequestReset(db, account.value, token, digest, now) else db
    case Complete(digest, hash, now) =>
      (match Redeemable(db, digest, now)
       case Some(i) => CompleteReset(db, i, hash, now)
       case None => db)
    case SessionCall(op) => if Refused(op) then db else RunSession(db, op)
    case SetActive(user, active, _) =>
      if user in db.users then db.(users := db.users[user := db.users[user].(active := active)]) else db
  }

  ghost function FlightsAfter(sys: System, step: Step): map<nat, Flight> {
    match step
    case BeginLogin(f, account, _) => sys.flights[f := Login(LoginSnapshot(sys.db, account))]
    case BeginChange(f, bearer, now) => sys.flights[f := Change(bearer, ChangeSnapshot(sys.db, bearer, now))]
    case FinishLogin(f, _, _, _, _, _) => sys.flights - {f}
    case FinishChange(f, _, _, _) => sys.flights - {f}
    case _ => sys.flights
  }

  function NewBearer(step: Step): Option<nat> {
    match step
    case FinishLogin(_, _, _, bearer, _, _) => Some(bearer)
    case SessionCall(op) => S.NewBearer(op)
    case _ => None
  }

  ghost function Next(sys: System, step: Step): System {
    System(DbAfter(sys, step), FlightsAfter(sys, step), Now(step),
           if NewBearer(step).Some? then sys.used + {S.Sha256(NewBearer(step).value)} else sys.used)
  }

  /**
   The clock does not run backwards; new flights, identifiers and bearers are new; sessions are issued by logins only,
   and a single revocation is one of its two kinds.
   */
  ghost predicate Legal(sys: System, step: Step) {
    && sys.clock <= Now(step)
    && (step.BeginLogin? || step.BeginChange? ==> step.flight !in sys.flights)
    && (step.FinishLogin? ==> step.id !in sys.db.sessions)
    && (NewBearer(step).Some? ==> S.Sha256(NewBearer(step).value) !in sys.used)
    && (step.SessionCall? ==> !step.op.Issue? && (step.op.RevokeOne? ==> step.op.kind != S.AllSessionsRevoked))
  }

  ghost predicate LegalRun(sys: System, steps: seq<Step>)
    decreases |steps|
  {
    steps == [] || (Legal(sys, steps[0]) && LegalRun(Next(sys, steps[0]), steps[1..]))
  }

  ghost function Run(sys: System, steps: seq<Step>): System
    decreases |steps|
  {
    if steps == [] then sys else Run(Next(sys, steps[0]), steps[1..])
  }
}
