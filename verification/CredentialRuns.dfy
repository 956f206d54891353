/**
 The session guarantees under the whole credential protocol, from installation on: the concurrency cap and the audit
 of single revocations hold while logins, password changes, resets, deactivations and session calls interleave.
 */
module CredentialRuns {
  import opened Prelude
  import opened Ranking
  import S = Sessions
  import opened SessionInvariants
  import opened SessionHistory
  import opened Credentials
  import opened CredentialHistory
  import opened ResetTokens

  // ---- the session events among all events ----------------------------------------------------------------------

  function SessionPart(events: seq<Event>): seq<S.Event> {
    if events == [] then []
    else
      var last := events[|events| - 1];
      SessionPart(events[..|events| - 1]) + (if last.OfSession? then [last.event] else [])
  }

  lemma {:induction false} SessionPartConcat(a: seq<Event>, b: seq<Event>)
    ensures SessionPart(a + b) == SessionPart(a) + SessionPart(b)
  {
    if b == [] {
      assert a + b == a;
    } else {
      assert (a + b)[..|a + b| - 1] == a + b[..|b| - 1];
      SessionPartConcat(a, b[..|b| - 1]);
    }
  }

  lemma {:induction false} SessionPartOfSessions(events: seq<S.Event>)
    ensures SessionPart(SessionEvents(events)) == events
  {
    if events != [] {
      var n := |events| - 1;
      SessionPartOfSessions(events[..n]);
      assert SessionEvents(events)[..n] == SessionEvents(events[..n]);
      assert events == events[..n] + [events[n]];
    }
  }

  /** The session events a step appends are those of the session operation it makes, if it makes one. */
  lemma AppendedSessionPart(sys: System, step: Step)
    ensures SessionPart(Appended(sys, step)) ==
            match EffectOf(sys, step) case Calls(op) => S.EventsOf(sys.db.sessions, op) case _ => []
  {
    hide OwnerVersion, ChangeFor, Confirmed, DbAfter;
    match step {
      case FinishLogin(_, _, id, _, _, _) =>
        if LoginProceeds(sys, step).Some? {
          var s := LoginProceeds(sys, step).value;
          hide S.EventsOf;
          SessionPartOfSessions(S.EventsOf(sys.db.sessions, IssueOp(s, step)));
          SessionPartConcat(SessionEvents(S.EventsOf(sys.db.sessions, IssueOp(s, step))), [LoginSucceeded(s.user, id)]);
        }
      case SessionCall(op) =>
        hide S.EventsOf;
        SessionPartOfSessions(S.EventsOf(sys.db.sessions, op));
      case FinishChange(_, _, _, _) =>
        if ChangeProceeds(sys, step).Some? {
          var s := ChangeProceeds(sys, step).value;
          SessionPartConcat([PasswordChanged(s.user, None)], RevocationEvent(sys.db, s.user, S.RevokeAll));
        }
      case Complete(digest, _, now) =>
        if Redeemable(sys.db, digest, now).Some? {
          var u := sys.db.tokens[Redeemable(sys.db, digest, now).value].user;
          var first := [ResetCompleted(u), PasswordChanged(u, Some(S.PasswordReset))];
          assert first[..1] == [ResetCompleted(u)];
          SessionPartConcat(first, RevocationEvent(sys.db, u, S.PasswordReset));
        }
      case _ =>
    }
  }

  // ---- the cap and the audit, step by step ------------------------------------------------------------------------

  function Trail(db: Db): S.State {
    S.State(db.sessions, SessionPart(db.events))
  }

  ghost predicate Guarded(sys: System) {
    Capped(sys.db.sessions, sys.clock) && Audited(Trail(sys.db))
  }

  lemma CapFades(rows: S.Rows, clock: int, now: int)
    requires Capped(rows, clock) && clock <= now
    ensures Capped(rows, now)
  {
    forall user, v
      ensures |S.ValidStamps(rows, user, v, now)| <= S.MAX_CONCURRENT
    {
      ValidityOnlyFades(rows, user, v, clock, now);
      hide S.ValidStamps;
      SubsetSize(S.ValidStamps(rows, user, v, now), S.ValidStamps(rows, user, v, clock));
    }
  }

  lemma RenewalCaps(rows: S.Rows, clock: int, user: nat, now: int, reason: S.Reason)
    requires RowsOk(rows, clock) && Capped(rows, clock) && clock <= now
    ensures Capped(S.AfterRevokeEvery(rows, user, now, reason), now)
  {
    hide Evolves, S.ValidStamps, S.AfterRevokeEvery, RowsOk;
    CapFades(rows, clock, now);
    RevokeEveryEvolves(rows, clock, user, now, reason);
    var after := S.AfterRevokeEvery(rows, user, now, reason);
    forall u, v
      ensures |S.ValidStamps(after, u, v, now)| <= S.MAX_CONCURRENT
    {
      EvolvedValidity(rows, after, now, u, v);
      SubsetSize(S.ValidStamps(after, u, v, now), S.ValidStamps(rows, u, v, now));
    }
  }

  /** A renewal revokes for reasons of its own, so no single revocation is added or lost. */
  lemma RenewalAudits(rows: S.Rows, events: seq<S.Event>, clock: int, user: nat, now: int, reason: S.Reason)
    requires RowsOk(rows, clock) && !Individual(reason) && Audited(S.State(rows, events))
    ensures Audited(S.State(S.AfterRevokeEvery(rows, user, now, reason), events))
  {
    var after := S.AfterRevokeEvery(rows, user, now, reason);
    forall r, i | Individual(r)
      ensures RevokedFor(after, r, i) <==> RevokedFor(rows, r, i)
    {
      assert i in rows ==> RowOk(rows[i], i, clock);
    }
    hide Mentions;
  }

  /**
   What a step does to sessions and session events: one session operation, one mass revocation without a session event,
   or nothing.
   */
  lemma StepTrail(sys: System, step: Step)
    ensures Trail(DbAfter(sys, step)) ==
            match EffectOf(sys, step)
            case Calls(op) => S.Apply(Trail(sys.db), op)
            case Renews(u, _, reason) =>
              Trail(sys.db).(rows := S.AfterRevokeEvery(sys.db.sessions, u, Now(step), reason))
            case _ => Trail(sys.db)
  {
    hide DbAfter, EffectOf, Appended, S.RowsAfter, S.EventsOf, S.AfterRevokeEvery, SessionPart;
    StepTables(sys, step);
    StepAppends(sys, step);
    AppendedSessionPart(sys, step);
    SessionPartConcat(sys.db.events, Appended(sys, step));
    assert SessionPart(sys.db.events) + [] == SessionPart(sys.db.events);
  }

  lemma StepGuards(sys: System, step: Step)
    requires Sound(sys) && Legal(sys, step) && Guarded(sys)
    ensures Guarded(Next(sys, step))
  {
    hide DbAfter, EffectOf, FlightsAfter, SessionPart, S.RowsAfter, S.EventsOf, S.AfterRevokeEvery, Capped, Audited;
    hide RowsOk;
    StepTrail(sys, step);
    var rows, now := sys.db.sessions, Now(step);
    match EffectOf(sys, step) {
      case Calls(op) =>
        StepCall(sys, step);
        StepKeepsCap(rows, sys.clock, op);
        StepAudits(Trail(sys.db), sys.clock, op);
      case Renews(u, _, reason) =>
        RenewalReason(sys, step);
        RenewalCaps(rows, sys.clock, u, now, reason);
        RenewalAudits(rows, SessionPart(sys.db.events), sys.clock, u, now, reason);
      case _ =>
        CapFades(rows, sys.clock, now);
    }
  }

  lemma RenewalReason(sys: System, step: Step)
    ensures EffectOf(sys, step).Renews? ==> !Individual(EffectOf(sys, step).reason)
  {
  }

  lemma {:induction false} RunGuards(sys: System, steps: seq<Step>)
    requires Sound(sys) && Guarded(sys) && LegalRun(sys, steps)
    ensures Guarded(Run(sys, steps))
    decreases |steps|
  {
    if steps != [] {
      StepSound(sys, steps[0]);
      StepGuards(sys, steps[0]);
      hide Sound, Guarded, Next, Legal;
      RunGuards(Next(sys, steps[0]), steps[1..]);
    }
  }

  // ---- from installation on ---------------------------------------------------------------------------------------

  /** Accounts with their credentials, and no session, token, event or request yet. */
  function Installed(users: map<nat, User>, credentials: map<nat, Credential>, clock: int): System {
    System(Db(users, credentials, map[], map[], []), map[], clock, {})
  }

  lemma InstalledHolds(users: map<nat, User>, credentials: map<nat, Credential>, clock: int)
    requires credentials.Keys <= users.Keys
    ensures var sys := Installed(users, credentials, clock);
      Sound(sys) && Owners(sys) && Current(users, sys.db.sessions) && TokensOk(sys.db.tokens) && Guarded(sys)
  {
    var sys := Installed(users, credentials, clock);
    forall user, v
      ensures |S.ValidStamps(sys.db.sessions, user, v, clock)| <= S.MAX_CONCURRENT
    {
      assert S.ValidStamps(sys.db.sessions, user, v, clock) == {};
    }
  }

  /** Unrevoked sessions are at their owner's version, tokens settle once, and a user has at most one open token. */
  ghost predicate InForce(db: Db) {
    && (forall i | i in db.sessions && db.sessions[i].revokedAt == None ::
          && db.sessions[i].user in db.users
          && db.sessions[i].securityVersion == db.users[db.sessions[i].user].securityVersion)
    && (forall i | i in db.tokens :: db.tokens[i].consumedAt == None || db.tokens[i].revokedAt == None)
    && (forall i, j | i in db.tokens && j in db.tokens
          && db.tokens[i].consumedAt == None && db.tokens[i].revokedAt == None
          && db.tokens[j].consumedAt == None && db.tokens[j].revokedAt == None ::
          db.tokens[i].user == db.tokens[j].user ==> i == j)
  }

  lemma CurrentMeans(db: Db)
    requires Current(db.users, db.sessions) && TokensOk(db.tokens)
    ensures InForce(db)
  {
  }

  /**
   From installation on, whatever interleaves: every unrevoked session carries its owner's current version, and a user
   has at most one open reset token, none both consumed and revoked.
   */
  lemma AlwaysCurrent(users: map<nat, User>, credentials: map<nat, Credential>, clock: int, steps: seq<Step>)
    requires credentials.Keys <= users.Keys && LegalRun(Installed(users, credentials, clock), steps)
    ensures InForce(Run(Installed(users, credentials, clock), steps).db)
  {
    hide Current, TokensOk, Sound, Run, LegalRun, InForce, Owners, Guarded;
    InstalledHolds(users, credentials, clock);
    SessionsStayCurrent(Installed(users, credentials, clock), steps);
    TokensStayOk(Installed(users, credentials, clock), steps);
    CurrentMeans(Run(Installed(users, credentials, clock), steps).db);
  }

  /** No user ever holds more than five valid sessions at one security version, from the last step on. */
  lemma AlwaysCapped(
    users: map<nat, User>, credentials: map<nat, Credential>, clock: int, steps: seq<Step>, user: nat,
    version: nat, later: int)
    requires credentials.Keys <= users.Keys && LegalRun(Installed(users, credentials, clock), steps)
    requires Run(Installed(users, credentials, clock), steps).clock <= later
    ensures
      |S.ValidStamps(Run(Installed(users, credentials, clock), steps).db.sessions, user, version, later)|
        <= S.MAX_CONCURRENT
  {
    InstalledHolds(users, credentials, clock);
    hide Run, LegalRun, Sound, Audited, S.ValidStamps;
    var end := Run(Installed(users, credentials, clock), steps);
    RunGuards(Installed(users, credentials, clock), steps);
    ValidityOnlyFades(end.db.sessions, user, version, end.clock, later);
    SubsetSize(S.ValidStamps(end.db.sessions, user, version, later),
      S.ValidStamps(end.db.sessions, user, version, end.clock));
  }

  /**
   Sessions revoked by the cap, and those logged out, are each named by exactly one event, and no other session is.
   */
  lemma AlwaysAudited(
    users: map<nat, User>, credentials: map<nat, Credential>, clock: int, steps: seq<Step>, reason: S.Reason, i: nat)
    requires credentials.Keys <= users.Keys && LegalRun(Installed(users, credentials, clock), steps)
    requires Individual(reason)
    ensures var db := Run(Installed(users, credentials, clock), steps).db;
      Mentions(SessionPart(db.events), reason, i) == if RevokedFor(db.sessions, reason, i) then 1 else 0
  {
    InstalledHolds(users, credentials, clock);
    hide Run, LegalRun, Sound, Capped;
    RunGuards(Installed(users, credentials, clock), steps);
  }
}
