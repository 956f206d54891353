/**
 The events of the session, credential, throttle and retention models as rows of the audit table: every one of them is
 accepted by the validator, so its row passes the table's casts and checks.
 */
module ModelEventRows {
  import opened Prelude
  import S = Sessions
  import SessionInvariants
  import SessionOutcomes
  import Credentials
  import CredentialHistory
  import Throttle
  import A = AuditCatalogue
  import opened AuditMigration

  /** An event without role, target, permission or throttling subject. */
  function Plain(
    name: string, result: string, reason: Option<string>, user: Option<nat>, session: Option<nat>, count: Option<int>)
    : A.Event
  {
    A.Event(name, result, reason, user, session, None, None, None, None, None, None, None, count)
  }

  function ReasonName(reason: S.Reason): string {
    match reason
    case ConcurrentLimit => "concurrent_limit"
    case Logout => "logout"
    case RevokeAll => "revoke_all"
    case PasswordReset => "password_reset"
  }

  function OfSession(e: S.Event): A.Event {
    var name := match e.kind
      case LoggedOut => "logout"
      case SessionRevoked => "session_revoked"
      case AllSessionsRevoked => "all_sessions_revoked";
    Plain(name, "success", Some(ReasonName(e.reason)), Some(e.user), e.session, None)
  }

  function OfCredential(e: Credentials.Event): A.Event {
    match e
    case PasswordChanged(user, cause) =>
      var reason := match cause case Some(r) => Some(ReasonName(r)) case None => None;
      Plain("password_changed", "success", reason, Some(user), None, None)
    case ResetRequested(user) => Plain("password_reset_requested", "success", None, Some(user), None, None)
    case ResetCompleted(user) =>
      Plain("password_reset_completed", "success", Some("password_reset"), Some(user), None, None)
    case EverySessionRevoked(user, reason) =>
      Plain("all_sessions_revoked", "success", Some(ReasonName(reason)), Some(user), None, None)
    case LoginSucceeded(user, session) => Plain("login_success", "success", None, Some(user), Some(session), None)
    case LoginFailed => Plain("login_failure", "failure", Some("invalid_credentials"), None, None, None)
    case OfSession(event) => OfSession(event)
  }

  function OfThrottle(e: Throttle.Event): A.Event {
    match e
    case LoginFailure => Plain("login_failure", "failure", Some("invalid_credentials"), None, None, None)
    case ThrottlingTriggered(scope) =>
      var reason := match scope
        case LoginUsername => "login_username"
        case LoginIp => "login_ip"
        case LoginIpUsername => "login_ip_username"
        case ResetUsername => "reset_username"
        case ResetIp => "reset_ip"
        case CsrfIp => "csrf_bootstrap";
      Plain("throttling_triggered", "denied", Some(reason), None, None, None)
  }

  function OfPruning(count: nat): A.Event {
    Plain("security_events_pruned", "success", Some("retention_expired"), None, None, Some(count))
  }

  // ---- the policies these events meet -----------------------------------------------------------------------------

  lemma AllowedOf(result: string, reasons: seq<string>, k: nat)
    requires result in A.Results() && (forall r | r in reasons :: r in A.Reasons()) && k < |reasons|
    ensures var p := A.Allow(result, reasons);
      p.result == result && None in p.allowed && Some(reasons[k]) in p.allowed
  {
    AllowLists(result, reasons);
    hide A.Allow, A.Allowing, A.Results, A.Reasons;
    var p := A.Allow(result, reasons);
    assert p.allowed[0] == None && p.allowed[k + 1] == Some(reasons[k]);
  }

  /** What the validator still asks of a plain event whose policy admits it. */
  lemma PlainValidates(
    name: string, result: string, reason: Option<string>, user: Option<nat>, session: Option<nat>, count: Option<int>)
    requires name in A.EventPolicies()
    requires A.EventPolicies()[name].result == result && reason in A.EventPolicies()[name].allowed
    requires name != [] && name[0] != 'r' && name[0] != 'm' && name != "tenant_switch"
    requires user == None ==> session == None
    requires if name == "security_events_pruned" then user == None && count.Some? && 0 <= count.value <= A.MAX_BIGINT
             else count == None
    ensures A.Validate(Plain(name, result, reason, user, session, count))
  {
    A.CatalogueCovered();
    A.PoliciesCoverEvents();
    NoRoleName(name);
    hide A.Events, A.EventPolicies, A.RoleEvents, A.MembershipRoleEvents, A.RolePermissionEvents, A.Results, A.Reasons;
  }

  lemma NoRoleName(name: string)
    requires name != [] && name[0] != 'r' && name[0] != 'm'
    ensures name !in A.RoleEvents() && name !in A.MembershipRoleEvents() && name !in A.RolePermissionEvents()
  {
    assert forall k | 0 <= k < |A.RoleEvents()| :: A.RoleEvents()[k][0] == 'r' || A.RoleEvents()[k][0] == 'm';
    assert forall k | 0 <= k < |A.MembershipRoleEvents()| :: A.MembershipRoleEvents()[k][0] == 'm';
    assert forall k | 0 <= k < |A.RolePermissionEvents()| :: A.RolePermissionEvents()[k][0] == 'r';
  }

  // ---- every event of the models ----------------------------------------------------------------------------------

  lemma LogoutValid(user: nat, session: Option<nat>)
    ensures A.Validate(Plain("logout", "success", Some("logout"), Some(user), session, None))
  {
    LogoutPolicy();
    AllowedOf("success", ["logout"], 0);
    hide A.Validate, A.EventPolicies, A.Allow;
    PlainValidates("logout", "success", Some("logout"), Some(user), session, None);
  }

  lemma RevokedValid(reason: S.Reason, user: nat, session: Option<nat>)
    ensures A.Validate(Plain("session_revoked", "success", Some(ReasonName(reason)), Some(user), session, None))
  {
    RevocationPolicy();
    AllowedOf("success", ["concurrent_limit", "logout", "revoke_all", "password_reset"], match reason
      case ConcurrentLimit => 0 case Logout => 1 case RevokeAll => 2 case PasswordReset => 3);
    hide A.Validate, A.EventPolicies, A.Allow;
    PlainValidates("session_revoked", "success", Some(ReasonName(reason)), Some(user), session, None);
  }

  lemma EveryRevokedValid(reason: S.Reason, user: nat, session: Option<nat>)
    requires reason == S.RevokeAll || reason == S.PasswordReset
    ensures A.Validate(Plain("all_sessions_revoked", "success", Some(ReasonName(reason)), Some(user), session, None))
  {
    EveryRevocationPolicy();
    AllowedOf("success", ["revoke_all", "password_reset"], if reason == S.RevokeAll then 0 else 1);
    hide A.Validate, A.EventPolicies, A.Allow;
    PlainValidates("all_sessions_revoked", "success", Some(ReasonName(reason)), Some(user), session, None);
  }

  lemma SessionEventValid(e: S.Event)
    requires match e.kind
      case LoggedOut => e.reason == S.Logout
      case SessionRevoked => true
      case AllSessionsRevoked => e.reason == S.RevokeAll || e.reason == S.PasswordReset
    ensures A.Validate(OfSession(e))
  {
    hide A.Validate;
    match e.kind
    case LoggedOut => LogoutValid(e.user, e.session);
    case SessionRevoked => RevokedValid(e.reason, e.user, e.session);
    case AllSessionsRevoked => EveryRevokedValid(e.reason, e.user, e.session);
  }

  /** Every event a session operation writes is one the validator accepts. */
  lemma SessionEventsValid(rows: S.Rows, clock: int, op: S.Op, k: nat)
    requires SessionInvariants.RowsOk(rows, clock) && clock <= op.now && (op.Issue? ==> op.id !in rows)
    requires op.RevokeOne? ==> op.kind != S.AllSessionsRevoked
    requires k < |S.EventsOf(rows, op)|
    ensures A.Validate(OfSession(S.EventsOf(rows, op)[k]))
  {
    var e := S.EventsOf(rows, op)[k];
    if op.Issue? {
      SessionOutcomes.IssueReports(rows, clock, op);
    }
    hide A.Validate, SessionInvariants.RowsOk, OfSession;
    SessionEventValid(e);
  }

  lemma LoginFailureValid()
    ensures A.Validate(Plain("login_failure", "failure", Some("invalid_credentials"), None, None, None))
  {
    LoginFailurePolicy();
    AllowedOf("failure", ["invalid_credentials", "dependency_unavailable"], 0);
    hide A.Validate, A.EventPolicies, A.Allow;
    PlainValidates("login_failure", "failure", Some("invalid_credentials"), None, None, None);
  }

  lemma NothingNamed(result: string)
    requires result in A.Results()
    ensures A.Allow(result, []).result == result && None in A.Allow(result, []).allowed
  {
  }

  lemma LoginSuccessValid(user: nat, session: nat)
    ensures A.Validate(Plain("login_success", "success", None, Some(user), Some(session), None))
  {
    LoginPolicy();
    NothingNamed("success");
    hide A.Validate, A.EventPolicies, A.Allow;
    PlainValidates("login_success", "success", None, Some(user), Some(session), None);
  }

  lemma PasswordEventsValid(user: nat)
    ensures A.Validate(Plain("password_changed", "success", None, Some(user), None, None))
    ensures A.Validate(Plain("password_changed", "success", Some("password_reset"), Some(user), None, None))
    ensures A.Validate(Plain("password_reset_completed", "success", Some("password_reset"), Some(user), None, None))
    ensures A.Validate(Plain("password_reset_requested", "success", None, Some(user), None, None))
  {
    RequestPolicy();
    PasswordPolicy();
    CompletionPolicy();
    NothingNamed("success");
    AllowedOf("success", ["password_reset"], 0);
    hide A.Validate, A.EventPolicies, A.Allow;
    PlainValidates("password_changed", "success", None, Some(user), None, None);
    PlainValidates("password_changed", "success", Some("password_reset"), Some(user), None, None);
    PlainValidates("password_reset_completed", "success", Some("password_reset"), Some(user), None, None);
    PlainValidates("password_reset_requested", "success", None, Some(user), None, None);
  }

  /** An event of the credential protocol, as its steps write them. */
  predicate Written(e: Credentials.Event) {
    match e
    case PasswordChanged(_, cause) => cause == None || cause == Some(S.PasswordReset)
    case EverySessionRevoked(_, reason) => reason == S.RevokeAll || reason == S.PasswordReset
    case OfSession(event) =>
      (match event.kind
       case LoggedOut => event.reason == S.Logout
       case SessionRevoked => true
       case AllSessionsRevoked => event.reason == S.RevokeAll)
    case _ => true
  }

  lemma WrittenValid(e: Credentials.Event)
    requires Written(e)
    ensures A.Validate(OfCredential(e))
  {
    hide A.Validate;
    match e
    case PasswordChanged(user, _) => PasswordEventsValid(user);
    case ResetRequested(user) => PasswordEventsValid(user);
    case ResetCompleted(user) => PasswordEventsValid(user);
    case EverySessionRevoked(user, reason) =>
      SessionEventValid(S.Event(S.AllSessionsRevoked, reason, user, None));
    case LoginSucceeded(user, session) => LoginSuccessValid(user, session);
    case LoginFailed => LoginFailureValid();
    case OfSession(event) => SessionEventValid(event);
  }

  lemma SessionEventsWritten(rows: S.Rows, clock: int, op: S.Op)
    requires SessionInvariants.RowsOk(rows, clock) && clock <= op.now && (op.Issue? ==> op.id !in rows)
    requires op.RevokeOne? ==> op.kind != S.AllSessionsRevoked
    ensures forall e | e in Credentials.SessionEvents(S.EventsOf(rows, op)) :: Written(e)
  {
    if op.Issue? {
      SessionOutcomes.IssueReports(rows, clock, op);
    }
    hide SessionInvariants.RowsOk;
  }

  /** Every event a step of the credential protocol writes is one the validator accepts. */
  lemma CredentialEventsValid(sys: Credentials.System, step: Credentials.Step, k: nat)
    requires CredentialHistory.Sound(sys) && Credentials.Legal(sys, step)
    requires k < |CredentialHistory.Appended(sys, step)|
    ensures A.Validate(OfCredential(CredentialHistory.Appended(sys, step)[k]))
  {
    StepWrites(sys, step);
    var e := CredentialHistory.Appended(sys, step)[k];
    hide A.Validate, OfCredential, CredentialHistory.Appended, CredentialHistory.Sound, Credentials.Legal;
    WrittenValid(e);
  }

  lemma StepWrites(sys: Credentials.System, step: Credentials.Step)
    requires CredentialHistory.Sound(sys) && Credentials.Legal(sys, step)
    ensures forall e | e in CredentialHistory.Appended(sys, step) :: Written(e)
  {
    if CredentialHistory.EffectOf(sys, step).Calls? {
      CredentialHistory.StepCall(sys, step);
      var op := CredentialHistory.EffectOf(sys, step).op;
      SessionEventsWritten(sys.db.sessions, sys.clock, op);
    }
    hide S.EventsOf, Credentials.ChangeFor, Credentials.Confirmed, Credentials.Redeemable, Credentials.OwnerVersion;
    hide Credentials.Opens, SessionInvariants.RowsOk, SessionInvariants.DistinctBearers;
  }

  lemma DenialValid(k: nat)
    requires k < 6
    ensures A.Validate(Plain("throttling_triggered", "denied", Some(
      ["csrf_bootstrap", "login_username", "login_ip", "login_ip_username", "reset_username", "reset_ip"][k]),
      None, None, None))
  {
    ThrottlingPolicy();
    var reasons := ["csrf_bootstrap", "login_username", "login_ip", "login_ip_username", "reset_username", "reset_ip"];
    AllowedOf("denied", reasons, k);
    hide A.Validate, A.EventPolicies, A.Allow;
    PlainValidates("throttling_triggered", "denied", Some(reasons[k]), None, None, None);
  }

  /** So is every denial of the throttle, the failure it causes, and the report of a retention batch. */
  lemma ThrottleEventsValid(e: Throttle.Event)
    ensures A.Validate(OfThrottle(e))
  {
    hide A.Validate;
    match e
    case LoginFailure => LoginFailureValid();
    case ThrottlingTriggered(scope) =>
      DenialValid(match scope
        case CsrfIp => 0 case LoginUsername => 1 case LoginIp => 2 case LoginIpUsername => 3 case ResetUsername => 4
        case ResetIp => 5);
  }

  lemma PruningEventsValid(count: nat)
    requires count <= 1000
    ensures A.Validate(OfPruning(count))
  {
    PruningPolicy();
    AllowedOf("success", ["retention_expired"], 0);
    hide A.Validate, A.EventPolicies, A.Allow;
    PlainValidates("security_events_pruned", "success", Some("retention_expired"), None, None, Some(count));
  }
}
