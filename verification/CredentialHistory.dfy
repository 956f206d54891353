/** What every interleaving of logins, password changes, resets and session operations keeps. */
module CredentialHistory {
  import opened Prelude
  import opened Ranking
  import S = Sessions
  import opened SessionInvariants
  import opened Credentials

  // ---- the shape of one step ------------------------------------------------------------------------------

  /** What a step does to users, credentials and sessions: nothing, one session operation, or one new credential. */
  datatype Effect = Nothing | Calls(op: S.Op) | Renews(user: nat, hash: nat, reason: S.Reason)
    | Activates(user: nat, active: bool)

  ghost function EffectOf(sys: System, step: Step): Effect {
    match step
    case FinishLogin(_, _, _, _, _, _) =>
      (match LoginProceeds(sys, step) case Some(s) => Calls(IssueOp(s, step)) case None => Nothing)
    case WriteBack(bearer, csrf, now) =>
      (match OwnerVersion(sys.db, bearer) case Some(v) => Calls(S.WriteCsrf(bearer, v, csrf, now)) case None => Nothing)
    case FinishChange(_, _, hash, _) =>
      (match ChangeProceeds(sys, step) case Some(s) => Renews(s.user, hash, S.RevokeAll) case None => Nothing)
    case Complete(digest, hash, now) =>
      (match Redeemable(sys.db, digest, now)
       case Some(i) => Renews(sys.db.tokens[i].user, hash, S.PasswordReset)
       case None => Nothing)
    case SessionCall(op) => if Refused(op) then Nothing else Calls(op)
    case SetActive(user, active, _) => if user in sys.db.users then Activates(user, active) else Nothing
    case _ => Nothing
  }

  function Renewed(db: Db, user: nat, hash: nat): (map<nat, User>, map<nat, Credential>)
    requires HasCredential(db, user)
  {
    (db.users[user := db.users[user].(securityVersion := db.users[user].securityVersion + 1)],
     db.credentials[user := Credential(hash, db.credentials[user].version + 1)])
  }

  lemma StepTables(sys: System, step: Step)
    ensures var e, db, after := EffectOf(sys, step), sys.db, DbAfter(sys, step);
      && (e.Renews? ==> HasCredential(db, e.user))
      && (e.Activates? ==> e.user in db.users)
      && after.sessions == (match e
            case Calls(op) => S.RowsAfter(db.sessions, op)
            case Renews(u, _, reason) => S.AfterRevokeEvery(db.sessions, u, Now(step), reason)
            case _ => db.sessions)
      && after.users == (match e
            case Renews(u, h, _) => Renewed(db, u, h).0
            case Activates(u, a) => db.users[u := db.users[u].(active := a)]
            case _ => db.users)
      && after.credentials == (match e case Renews(u, h, _) => Renewed(db, u, h).1 case _ => db.credentials)
  {
    hide S.RowsAfter, S.EventsOf, S.AfterRevokeEvery, RevocationEvent, OwnerVersion, RevokeOpen;
  }

  /**
   A step's session operation happens at the step's time, issues only a fresh confirmed login, and draws only new
   bearers.
   */
  lemma StepCall(sys: System, step: Step)
    requires Legal(sys, step) && EffectOf(sys, step).Calls?
    ensures var op := EffectOf(sys, step).op;
      && op.now == Now(step)
      && (S.NewBearer(op).Some? ==> NewBearer(step) == S.NewBearer(op))
      && (op.Issue? ==>
            && op.id !in sys.db.sessions && HasCredential(sys.db, op.user)
            && op.securityVersion == sys.db.users[op.user].securityVersion)
  {
    hide S.RowsAfter, S.EventsOf, ChangeFor, OwnerVersion;
  }

  // ---- session currency ---------------------------------------------------------------------------------------

  /** References hold and the session table is well formed. */
  ghost predicate Sound(sys: System) {
    && RowsOk(sys.db.sessions, sys.clock)
    && DistinctBearers(sys.db.sessions)
    && Recorded(sys.db.sessions, sys.used)
    && sys.db.credentials.Keys <= sys.db.users.Keys
  }

  /** Every session belongs to a user and is not ahead of that user; every unrevoked one is at the user's version. */
  ghost predicate Current(users: map<nat, User>, rows: S.Rows) {
    forall i | i in rows ::
      && rows[i].user in users
      && rows[i].securityVersion <= users[rows[i].user].securityVersion
      && (rows[i].revokedAt == None ==> rows[i].securityVersion == users[rows[i].user].securityVersion)
  }

  lemma StepSound(sys: System, step: Step)
    requires Sound(sys) && Legal(sys, step)
    ensures Sound(Next(sys, step))
    ensures forall i | i in sys.db.sessions ::
      i in DbAfter(sys, step).sessions && Evolves(sys.db.sessions[i], DbAfter(sys, step).sessions[i], Now(step))
  {
    hide DbAfter, EffectOf, S.RowsAfter, S.AfterRevokeEvery, RowOk;
    StepTables(sys, step);
    var e := EffectOf(sys, step);
    match e {
      case Calls(op) =>
        StepCall(sys, step);
        StepEvolves(sys.db.sessions, sys.clock, op);
        StepKeepsBearers(sys.db.sessions, sys.clock, sys.used, op);
      case Renews(u, _, reason) =>
        RevokeEveryEvolves(sys.db.sessions, sys.clock, u, Now(step), reason);
      case _ => RowsOkLater(sys.db.sessions, sys.clock, Now(step));
    }
  }

  lemma CallCurrent(users: map<nat, User>, rows: S.Rows, clock: int, op: S.Op)
    requires RowsOk(rows, clock) && clock <= op.now && Current(users, rows)
    requires op.Issue? ==> op.id !in rows && op.user in users && op.securityVersion == users[op.user].securityVersion
    ensures Current(users, S.RowsAfter(rows, op))
  {
    StepEvolves(rows, clock, op);
    IssuedVersion(rows, op);
    hide S.RowsAfter, RowsOk;
  }

  lemma RenewalCurrent(db: Db, user: nat, hash: nat, now: int, reason: S.Reason)
    requires HasCredential(db, user) && Current(db.users, db.sessions)
    ensures Current(Renewed(db, user, hash).0, S.AfterRevokeEvery(db.sessions, user, now, reason))
  {
  }

  lemma StepCurrent(sys: System, step: Step)
    requires Sound(sys) && Legal(sys, step) && Current(sys.db.users, sys.db.sessions)
    ensures Current(DbAfter(sys, step).users, DbAfter(sys, step).sessions)
  {
    StepTables(sys, step);
    var e := EffectOf(sys, step);
    match e {
      case Calls(op) =>
        StepCall(sys, step);
        CallCurrent(sys.db.users, sys.db.sessions, sys.clock, op);
      case Renews(u, h, reason) => RenewalCurrent(sys.db, u, h, Now(step), reason);
      case _ =>
    }
    hide DbAfter, EffectOf, S.RowsAfter, S.AfterRevokeEvery, Renewed, Legal;
  }

  lemma IssuedVersion(rows: S.Rows, op: S.Op)
    ensures op.Issue? ==>
      var r := S.RowsAfter(rows, op)[op.id]; r.user == op.user && r.securityVersion == op.securityVersion
  {
  }

  /**
   From any sound start, after any interleaving, each unrevoked session carries its user's current security version.
   */
  lemma {:induction false} SessionsStayCurrent(sys: System, steps: seq<Step>)
    requires Sound(sys) && Current(sys.db.users, sys.db.sessions) && LegalRun(sys, steps)
    ensures Sound(Run(sys, steps)) && Current(Run(sys, steps).db.users, Run(sys, steps).db.sessions)
    decreases |steps|
  {
    if steps != [] {
      StepSound(sys, steps[0]);
      StepCurrent(sys, steps[0]);
      hide Sound, Current, DbAfter, FlightsAfter, NewBearer;
      SessionsStayCurrent(Next(sys, steps[0]), steps[1..]);
    }
  }

  /** No step - the login's write-back included - changes or un-revokes a revoked session. */
  lemma {:induction false} RevokedStaysRevoked(sys: System, steps: seq<Step>, i: nat)
    requires Sound(sys) && LegalRun(sys, steps)
    requires i in sys.db.sessions && sys.db.sessions[i].revokedAt.Some?
    ensures i in Run(sys, steps).db.sessions && Run(sys, steps).db.sessions[i] == sys.db.sessions[i]
    decreases |steps|
  {
    if steps != [] {
      StepSound(sys, steps[0]);
      hide Sound, DbAfter, FlightsAfter, NewBearer;
      RevokedStaysRevoked(Next(sys, steps[0]), steps[1..], i);
    }
  }

  // ---- versions -----------------------------------------------------------------------------------------------

  /** How far a user's credential has moved. */
  function VersionOf(db: Db, user: nat): nat {
    if user in db.credentials then db.credentials[user].version else 0
  }

  function SecurityOf(db: Db, user: nat): nat {
    if user in db.users then db.users[user].securityVersion else 0
  }

  function Changes(events: seq<Event>, user: nat): nat {
    if events == [] then 0
    else
      var last := events[|events| - 1];
      Changes(events[..|events| - 1], user) + (if last.PasswordChanged? && last.user == user then 1 else 0)
  }

  lemma {:induction false} ChangesConcat(a: seq<Event>, b: seq<Event>, user: nat)
    ensures Changes(a + b, user) == Changes(a, user) + Changes(b, user)
  {
    if b == [] {
      assert a + b == a;
    } else {
      assert (a + b)[..|a + b| - 1] == a + b[..|b| - 1];
      ChangesConcat(a, b[..|b| - 1], user);
    }
  }

  lemma {:induction false} SessionEventsChangeNothing(events: seq<S.Event>, user: nat)
    ensures Changes(SessionEvents(events), user) == 0
  {
    if events != [] {
      SessionEventsChangeNothing(events[..|events| - 1], user);
      assert SessionEvents(events)[..|events| - 1] == SessionEvents(events[..|events| - 1]);
    }
  }

  /** A user's credential is renewed by this step: by a password change or by a reset, and by nothing else. */
  ghost predicate RenewedBy(sys: System, step: Step, user: nat) {
    EffectOf(sys, step).Renews? && EffectOf(sys, step).user == user
  }

  /**
   One renewal raises both versions by one and writes one password_changed event; no other step moves either or writes
   one.
   */
  lemma StepInLockstep(sys: System, step: Step, user: nat)
    ensures var d := if RenewedBy(sys, step, user) then 1 else 0;
      && VersionOf(DbAfter(sys, step), user) == VersionOf(sys.db, user) + d
      && SecurityOf(DbAfter(sys, step), user) == SecurityOf(sys.db, user) + d
  {
    StepTables(sys, step);
    hide DbAfter, EffectOf;
  }

  /** The events one step appends. */
  ghost function Appended(sys: System, step: Step): seq<Event> {
    match step
    case FinishLogin(_, _, id, _, _, _) =>
      (match LoginProceeds(sys, step)
       case Some(s) => SessionEvents(S.EventsOf(sys.db.sessions, IssueOp(s, step))) + [LoginSucceeded(s.user, id)]
       case None => [LoginFailed])
    case WriteBack(_, _, _) => []
    case FinishChange(_, _, _, _) =>
      (match ChangeProceeds(sys, step)
       case Some(s) => [PasswordChanged(s.user, None)] + RevocationEvent(sys.db, s.user, S.RevokeAll)
       case None => [])
    case Request(account, token, digest, _) =>
      if Opens(sys.db, account, token, digest) then [ResetRequested(account.value)] else []
    case Complete(digest, _, now) =>
      (match Redeemable(sys.db, digest, now)
       case Some(i) =>
         var u := sys.db.tokens[i].user;
         [ResetCompleted(u), PasswordChanged(u, Some(S.PasswordReset))] + RevocationEvent(sys.db, u, S.PasswordReset)
       case None => [])
    case SessionCall(op) => if Refused(op) then [] else SessionEvents(S.EventsOf(sys.db.sessions, op))
    case _ => []
  }

  lemma StepAppends(sys: System, step: Step)
    ensures DbAfter(sys, step).events == sys.db.events + Appended(sys, step)
  {
    hide S.RowsAfter, S.AfterRevokeEvery, RevokeOpen, ChangeFor, Confirmed;
    if step.WriteBack? {
      assert SessionEvents([]) == [];
    }
  }

  lemma ChangesOfOne(e: Event, user: nat)
    ensures Changes([e], user) == if e.PasswordChanged? && e.user == user then 1 else 0
  {
    assert [e][..0] == [];
  }

  /** The events of a renewal hold one password_changed for its user. */
  lemma RenewalChanges(db: Db, first: seq<Event>, owner: nat, cause: Option<S.Reason>, reason: S.Reason, user: nat)
    requires first == [] || first == [ResetCompleted(owner)]
    ensures Changes(first + [PasswordChanged(owner, cause)] + RevocationEvent(db, owner, reason), user) ==
      if owner == user then 1 else 0
  {
    var changed := PasswordChanged(owner, cause);
    ChangesConcat(first + [changed], RevocationEvent(db, owner, reason), user);
    ChangesConcat(first, [changed], user);
    ChangesOfOne(changed, user);
    ChangesOfOne(ResetCompleted(owner), user);
    ChangesOfOne(EverySessionRevoked(owner, reason), user);
  }

  lemma AppendedChanges(sys: System, step: Step, user: nat)
    ensures Changes(Appended(sys, step), user) == if RenewedBy(sys, step, user) then 1 else 0
  {
    hide S.EventsOf, OwnerVersion, ChangeFor, Confirmed, DbAfter, RevocationEvent, LoginProceeds, ChangeProceeds;
    hide Redeemable, Opens;
    match step {
      case FinishLogin(_, _, id, _, _, _) =>
        ChangesOfOne(LoginFailed, user);
        if LoginProceeds(sys, step).Some? {
          var s := LoginProceeds(sys, step).value;
          SessionEventsChangeNothing(S.EventsOf(sys.db.sessions, IssueOp(s, step)), user);
          ChangesOfOne(LoginSucceeded(s.user, id), user);
          ChangesConcat(SessionEvents(S.EventsOf(sys.db.sessions, IssueOp(s, step))),
            [LoginSucceeded(s.user, id)], user);
        }
      case SessionCall(op) => SessionEventsChangeNothing(S.EventsOf(sys.db.sessions, op), user);
      case FinishChange(_, _, _, _) =>
        if ChangeProceeds(sys, step).Some? {
          var u := ChangeProceeds(sys, step).value.user;
          RenewalChanges(sys.db, [], u, None, S.RevokeAll, user);
          assert [] + [PasswordChanged(u, None)] == [PasswordChanged(u, None)];
        }
      case Complete(digest, _, now) =>
        if Redeemable(sys.db, digest, now).Some? {
          RedeemableKnown(sys.db, digest, now);
          var u := sys.db.tokens[Redeemable(sys.db, digest, now).value].user;
          RenewalChanges(sys.db, [ResetCompleted(u)], u, Some(S.PasswordReset), S.PasswordReset, user);
          var changed := PasswordChanged(u, Some(S.PasswordReset));
          assert [ResetCompleted(u)] + [changed] == [ResetCompleted(u), changed];
        }
      case Request(account, _, _, _) =>
        if account.Some? {
          ChangesOfOne(ResetRequested(account.value), user);
        }
      case _ =>
    }
  }

  lemma RedeemableKnown(db: Db, digest: S.Digest, now: int)
    ensures Redeemable(db, digest, now).Some? ==> Redeemable(db, digest, now).value in db.tokens
  {
  }

  /** How many of a run's steps renewed a user's credential. */
  ghost function Renewals(sys: System, steps: seq<Step>, user: nat): nat
    decreases |steps|
  {
    if steps == [] then 0
    else (if RenewedBy(sys, steps[0], user) then 1 else 0) + Renewals(Next(sys, steps[0]), steps[1..], user)
  }

  /**
   Lockstep over any interleaving: both versions of a user rise by the number of renewals, and that is the
   number of password_changed events written for the user.
   */
  lemma {:induction false} VersionsInLockstep(sys: System, steps: seq<Step>, user: nat)
    ensures var end, n := Run(sys, steps), Renewals(sys, steps, user);
      && VersionOf(end.db, user) == VersionOf(sys.db, user) + n
      && SecurityOf(end.db, user) == SecurityOf(sys.db, user) + n
      && Changes(end.db.events, user) == Changes(sys.db.events, user) + n
    decreases |steps|
  {
    if steps != [] {
      var step := steps[0];
      StepInLockstep(sys, step, user);
      StepAppends(sys, step);
      AppendedChanges(sys, step, user);
      ChangesConcat(sys.db.events, Appended(sys, step), user);
      hide DbAfter, FlightsAfter, Appended, RenewedBy, Changes;
      VersionsInLockstep(Next(sys, step), steps[1..], user);
    }
  }

  lemma {:induction false} RunSplits(sys: System, a: seq<Step>, b: seq<Step>)
    ensures Run(sys, a + b) == Run(Run(sys, a), b)
    decreases |a|
  {
    hide Next;
    if a == [] {
      assert a + b == b;
    } else {
      assert (a + b)[1..] == a[1..] + b;
      RunSplits(Next(sys, a[0]), a[1..], b);
    }
  }

  /** The state a run's k-th step sees. */
  ghost function StateAt(sys: System, steps: seq<Step>, k: nat): System
    requires k <= |steps|
  {
    Run(sys, steps[..k])
  }

  lemma StepsCompose(sys: System, steps: seq<Step>, i: nat, j: nat)
    requires i < j <= |steps|
    ensures StateAt(sys, steps, j) == Run(Next(StateAt(sys, steps, i), steps[i]), steps[i + 1..j])
  {
    hide Next;
    assert steps[..j] == steps[..i] + [steps[i]] + steps[i + 1..j];
    RunSplits(sys, steps[..i] + [steps[i]], steps[i + 1..j]);
    RunSplits(sys, steps[..i], [steps[i]]);
    assert [steps[i]][1..] == [];
    assert Run(StateAt(sys, steps, i), [steps[i]]) == Next(StateAt(sys, steps, i), steps[i]);
  }

  /**
   Compare-and-swap: two password changes of one user that both succeed saw different credential versions,
   the later one a later version.
   */
  lemma OneChangePerVersion(sys: System, steps: seq<Step>, i: nat, j: nat)
    requires i < j < |steps| && steps[i].FinishChange? && steps[j].FinishChange?
    requires ChangeProceeds(StateAt(sys, steps, i), steps[i]).Some?
      && ChangeProceeds(StateAt(sys, steps, j), steps[j]).Some?
    requires ChangeProceeds(StateAt(sys, steps, i), steps[i]).value.user ==
      ChangeProceeds(StateAt(sys, steps, j), steps[j]).value.user
    ensures ChangeProceeds(StateAt(sys, steps, i), steps[i]).value.credentialVersion
          < ChangeProceeds(StateAt(sys, steps, j), steps[j]).value.credentialVersion
  {
    var first, second := StateAt(sys, steps, i), StateAt(sys, steps, j);
    var user := ChangeProceeds(first, steps[i]).value.user;
    ChangeSawCurrent(first, steps[i]);
    ChangeSawCurrent(second, steps[j]);
    StepInLockstep(first, steps[i], user);
    StepsCompose(sys, steps, i, j);
    VersionsInLockstep(Next(first, steps[i]), steps[i + 1..j], user);
    hide Run, DbAfter, ChangeProceeds;
  }

  /** The session a change's bearer finds, then or later, is one of the account its snapshot saw. */
  ghost predicate Owners(sys: System) {
    forall f | f in sys.flights && sys.flights[f].Change? && sys.flights[f].snapshot.Some? ::
      var d := S.Sha256(sys.flights[f].bearer);
      && d in sys.used
      && forall i | i in sys.db.sessions && sys.db.sessions[i].bearer == d ::
         sys.db.sessions[i].user == sys.flights[f].snapshot.value.user
  }

  lemma StepBearers(sys: System, step: Step, d: S.Digest)
    requires Sound(sys) && Legal(sys, step) && d in sys.used
    ensures var after := DbAfter(sys, step).sessions;
      forall i | i in after && after[i].bearer == d ::
        i in sys.db.sessions && sys.db.sessions[i].bearer == d && sys.db.sessions[i].user == after[i].user
  {
    hide DbAfter, EffectOf, S.RowsAfter, S.AfterRevokeEvery, RowOk;
    StepTables(sys, step);
    match EffectOf(sys, step) {
      case Calls(op) =>
        StepCall(sys, step);
        UsedBearerStays(sys.db.sessions, sys.clock, sys.used, op, d);
      case Renews(u, _, reason) => RevokeEveryEvolves(sys.db.sessions, sys.clock, u, Now(step), reason);
      case _ =>
    }
  }

  /** A new snapshot is of the owner of the one session its bearer finds. */
  lemma SnapshotOwner(sys: System, bearer: nat, now: int)
    requires Sound(sys) && ChangeSnapshot(sys.db, bearer, now).Some?
    ensures var d := S.Sha256(bearer);
      && d in sys.used
      && forall i | i in sys.db.sessions && sys.db.sessions[i].bearer == d ::
           sys.db.sessions[i].user == ChangeSnapshot(sys.db, bearer, now).value.user
  {
  }

  lemma StepOwners(sys: System, step: Step)
    requires Sound(sys) && Legal(sys, step) && Owners(sys)
    ensures Owners(Next(sys, step))
  {
    hide DbAfter, Sound, ChangeSnapshot, LoginSnapshot;
    var after := Next(sys, step);
    forall f | f in after.flights && after.flights[f].Change? && after.flights[f].snapshot.Some?
      ensures var d := S.Sha256(after.flights[f].bearer);
        && d in after.used
        && forall i | i in after.db.sessions && after.db.sessions[i].bearer == d ::
             after.db.sessions[i].user == after.flights[f].snapshot.value.user
    {
      if step.BeginChange? && step.flight == f {
        SnapshotOwner(sys, step.bearer, step.now);
      } else {
        assert f in sys.flights && after.flights[f] == sys.flights[f];
      }
      StepBearers(sys, step, S.Sha256(after.flights[f].bearer));
    }
  }

  lemma {:induction false} RunOwners(sys: System, steps: seq<Step>)
    requires Sound(sys) && Owners(sys) && LegalRun(sys, steps)
    ensures Sound(Run(sys, steps)) && Owners(Run(sys, steps))
    decreases |steps|
  {
    if steps != [] {
      StepSound(sys, steps[0]);
      StepOwners(sys, steps[0]);
      hide Sound, Owners, Next, Legal;
      RunOwners(Next(sys, steps[0]), steps[1..]);
    }
  }

  /**
   apply_password_change is told no account and takes the owner of whatever session the bearer finds: after any
   interleaving that is the account the snapshot was of.
   */
  lemma ChangesTheAccountItSaw(sys: System, steps: seq<Step>, finish: Step)
    requires Sound(sys) && Owners(sys) && LegalRun(sys, steps)
    requires finish.FinishChange? && ChangeProceeds(Run(sys, steps), finish).Some?
    ensures var end := Run(sys, steps);
      && finish.flight in end.flights && ChangeProceeds(end, finish) == end.flights[finish.flight].snapshot
  {
    hide Run, LegalRun, Sound;
    RunOwners(sys, steps);
  }

  lemma ChangeSawCurrent(sys: System, step: Step)
    requires step.FinishChange? && ChangeProceeds(sys, step).Some?
    ensures ChangeProceeds(sys, step).value.credentialVersion == VersionOf(sys.db, ChangeProceeds(sys, step).value.user)
    ensures RenewedBy(sys, step, ChangeProceeds(sys, step).value.user)
  {
  }

  // ---- stale snapshots ---------------------------------------------------------------------------------------

  predicate Finishes(step: Step, flight: nat) {
    (step.FinishLogin? || step.FinishChange?) && step.flight == flight
  }

  /** While nobody finishes it, a flight keeps its snapshot, and what the snapshot saw changes only by renewal. */
  lemma {:induction false} FlightWaits(sys: System, steps: seq<Step>, flight: nat)
    requires LegalRun(sys, steps) && forall k | 0 <= k < |steps| :: !Finishes(steps[k], flight)
    requires flight in sys.flights && sys.flights[flight].snapshot.Some?
    requires HasCredential(sys.db, sys.flights[flight].snapshot.value.user)
    requires SnapshotOf(sys.db, sys.flights[flight].snapshot.value.user) == sys.flights[flight].snapshot.value
    ensures var s, end := sys.flights[flight].snapshot.value, Run(sys, steps);
      && flight in end.flights && end.flights[flight] == sys.flights[flight]
      && HasCredential(end.db, s.user)
      && (Renewals(sys, steps, s.user) == 0 ==> SnapshotOf(end.db, s.user) == s)
    decreases |steps|
  {
    if steps != [] {
      var step := steps[0];
      var s := sys.flights[flight].snapshot.value;
      StepTables(sys, step);
      assert !Finishes(step, flight);
      assert forall k | 0 <= k < |steps| - 1 :: steps[1..][k] == steps[k + 1];
      hide DbAfter, EffectOf;
      if RenewedBy(sys, step, s.user) {
        FlightStays(Next(sys, step), steps[1..], flight);
        AccountsStay(Next(sys, step), steps[1..], s.user);
      } else {
        FlightWaits(Next(sys, step), steps[1..], flight);
      }
    }
  }

  /** An unfinished flight stays as it is, with or without a snapshot. */
  lemma {:induction false} FlightStays(sys: System, steps: seq<Step>, flight: nat)
    requires LegalRun(sys, steps) && forall k | 0 <= k < |steps| :: !Finishes(steps[k], flight)
    requires flight in sys.flights
    ensures flight in Run(sys, steps).flights && Run(sys, steps).flights[flight] == sys.flights[flight]
    decreases |steps|
  {
    if steps != [] {
      assert !Finishes(steps[0], flight);
      assert forall k | 0 <= k < |steps| - 1 :: steps[1..][k] == steps[k + 1];
      hide DbAfter, LoginSnapshot, ChangeSnapshot;
      FlightStays(Next(sys, steps[0]), steps[1..], flight);
    }
  }

  /** Accounts and credentials are never taken away. */
  lemma {:induction false} AccountsStay(sys: System, steps: seq<Step>, user: nat)
    ensures user in sys.db.users ==> user in Run(sys, steps).db.users
    ensures user in sys.db.credentials ==> user in Run(sys, steps).db.credentials
    ensures user !in sys.db.credentials ==> user !in Run(sys, steps).db.credentials
    decreases |steps|
  {
    if steps != [] {
      StepTables(sys, steps[0]);
      hide DbAfter, EffectOf, FlightsAfter;
      AccountsStay(Next(sys, steps[0]), steps[1..], user);
    }
  }

  /**
   What the final transaction of a login leaves. Proceeding: the new session, valid at once, under the account's
   version, with the sessions over the cap revoked, everything else as it was, and a success event last. Not
   proceeding: one failure event and nothing else.
   */
  lemma LoginLeaves(sys: System, step: Step)
    requires step.FinishLogin?
    ensures var before, after := sys.db, DbAfter(sys, step);
      && after.users == before.users && after.credentials == before.credentials && after.tokens == before.tokens
      && match LoginProceeds(sys, step)
         case None => after.sessions == before.sessions && after.events == before.events + [LoginFailed]
         case Some(s) =>
           var issued :=
             S.Fresh(step.id, s.user, step.bearer, step.csrf, before.users[s.user].securityVersion, step.now);
           var evicted := S.Evicted(before.sessions, s.user, s.securityVersion, step.now);
           && step.id in after.sessions && after.sessions[step.id] == issued
           && S.IsValid(issued, step.now, before.users[s.user].securityVersion)
           && after.sessions.Keys == before.sessions.Keys + {step.id}
           && (forall i | i in before.sessions && i != step.id :: after.sessions[i] ==
                 if S.StampOf(before.sessions[i]) in evicted
                 then S.Revoke(before.sessions[i], step.now, S.ConcurrentLimit) else before.sessions[i])
           && after.events == before.events + SessionEvents(S.EvictionEvents(s.user, Ordered(evicted)))
              + [LoginSucceeded(s.user, step.id)]
  {
    hide S.Evicted, Ordered, S.EvictionEvents;
  }
}
