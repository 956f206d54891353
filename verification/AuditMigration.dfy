/**
 The event contract as the migration froze it in the database, against the policy table it was generated from: row by
 row they accept the same results and reasons.
 */
module AuditMigration {
  import opened Prelude
  import opened AuditContract
  import opened AuditCatalogue

  /** The disjuncts of the frozen check: an event type, its result, and the reasons it may name. */
  function FrozenContract(): seq<(string, string, seq<string>)> {
    [("login_success", "success", []),
     ("login_failure", "failure", ["dependency_unavailable", "invalid_credentials"]),
     ("logout", "success", ["logout"]),
     ("session_revoked", "success", ["concurrent_limit", "logout", "password_reset", "revoke_all"]),
     ("all_sessions_revoked", "success", ["password_reset", "revoke_all"]),
     ("password_changed", "success", ["password_reset"]),
     ("password_reset_requested", "success", []),
     ("password_reset_completed", "success", ["password_reset"]),
     ("membership_denied", "denied", ["dependency_unavailable", "membership_unavailable"]),
     ("tenant_switch", "success", []),
     ("throttling_triggered", "denied",
      ["csrf_bootstrap", "login_ip", "login_ip_username", "login_username", "reset_ip", "reset_username"]),
     ("authorization_denied", "denied", ["dependency_unavailable", "membership_unavailable", "permission_denied"]),
     ("csrf_rejected", "denied", ["csrf_invalid", "csrf_missing", "csrf_stale"]),
     ("origin_rejected", "denied", ["origin_denied"]),
     ("role_created", "success", []), ("role_updated", "success", []), ("role_disabled", "success", []),
     ("role_permission_assigned", "success", []), ("role_permission_removed", "success", []),
     ("membership_role_assigned", "success", []), ("membership_role_removed", "success", []),
     ("security_events_pruned", "success", ["retention_expired"])]
  }

  lemma SomeResult(result: string)
    requires result == "success" || result == "failure" || result == "denied"
    ensures result in Results()
  {
    assert Results()[0] == "success" && Results()[1] == "failure" && Results()[2] == "denied";
  }

  /** The table gives an event this result and these reasons. */
  ghost predicate Has(name: string, result: string, listed: seq<string>) {
    && result in Results() && (forall r | r in listed :: r in Reasons())
    && name in EventPolicies() && EventPolicies()[name] == Allow(result, listed)
  }

  lemma LoginFailurePolicy()
    ensures Has("login_failure", "failure", ["invalid_credentials", "dependency_unavailable"])
  {
    SomeResult("failure");
    hide Allow, Allowing, Results;
  }

  lemma LogoutPolicy()
    ensures Has("logout", "success", ["logout"])
  {
    SomeResult("success");
    hide Allow, Allowing, Results;
  }

  lemma RevocationPolicy()
    ensures Has("session_revoked", "success", ["concurrent_limit", "logout", "revoke_all", "password_reset"])
  {
    SomeResult("success");
    hide Allow, Allowing, Results;
  }

  lemma EveryRevocationPolicy()
    ensures Has("all_sessions_revoked", "success", ["revoke_all", "password_reset"])
  {
    SomeResult("success");
    hide Allow, Allowing, Results;
  }

  lemma PasswordPolicy()
    ensures Has("password_changed", "success", ["password_reset"])
  {
    SomeResult("success");
    hide Allow, Allowing, Results;
  }

  lemma CompletionPolicy()
    ensures Has("password_reset_completed", "success", ["password_reset"])
  {
    SomeResult("success");
    hide Allow, Allowing, Results;
  }

  lemma MembershipPolicy()
    ensures Has("membership_denied", "denied", ["membership_unavailable", "dependency_unavailable"])
  {
    SomeResult("denied");
    hide Allow, Allowing, Results;
  }

  lemma ThrottlingPolicy()
    ensures Has("throttling_triggered", "denied",
      ["csrf_bootstrap", "login_username", "login_ip", "login_ip_username", "reset_username", "reset_ip"])
  {
    SomeResult("denied");
    hide Allow, Allowing, Results;
  }

  lemma AuthorizationPolicy()
    ensures Has("authorization_denied", "denied",
      ["permission_denied", "membership_unavailable", "dependency_unavailable"])
  {
    SomeResult("denied");
    hide Allow, Allowing, Results;
  }

  lemma CsrfPolicy()
    ensures Has("csrf_rejected", "denied", ["csrf_missing", "csrf_invalid", "csrf_stale"])
  {
    SomeResult("denied");
    hide Allow, Allowing, Results;
  }

  lemma OriginPolicy()
    ensures Has("origin_rejected", "denied", ["origin_denied"])
  {
    SomeResult("denied");
    hide Allow, Allowing, Results;
  }

  lemma PruningPolicy()
    ensures Has("security_events_pruned", "success", ["retention_expired"])
  {
    SomeResult("success");
    hide Allow, Allowing, Results;
  }

  lemma LoginPolicy()
    ensures Has("login_success", "success", [])
  {
    SomeResult("success");
    hide Allow, Allowing, Results, Reasons;
  }

  lemma RequestPolicy()
    ensures Has("password_reset_requested", "success", [])
  {
    SomeResult("success");
    hide Allow, Allowing, Results, Reasons;
  }

  lemma SwitchPolicy()
    ensures Has("tenant_switch", "success", [])
  {
    SomeResult("success");
    hide Allow, Allowing, Results, Reasons;
  }

  lemma RolePolicies()
    ensures Has("role_created", "success", []) && Has("role_updated", "success", [])
    ensures Has("role_disabled", "success", [])
  {
    SomeResult("success");
    hide Allow, Allowing, Results, Reasons;
    assert "role_created"[5] == 'c' && "role_updated"[5] == 'u';
  }

  lemma RelationPolicies()
    ensures Has("role_permission_assigned", "success", []) && Has("role_permission_removed", "success", [])
    ensures Has("membership_role_assigned", "success", []) && Has("membership_role_removed", "success", [])
  {
    SomeResult("success");
    hide Allow, Allowing, Results, Reasons;
    assert "role_permission_assigned"[0] == 'r' && "role_permission_removed"[0] == 'r';
    assert "membership_role_assigned"[0] == 'm' && "membership_role_removed"[0] == 'm';
  }

  lemma AllowLists(result: string, listed: seq<string>)
    requires result in Results() && forall r | r in listed :: r in Reasons()
    ensures var p := Allow(result, listed);
      && p.result == result && |p.allowed| == |listed| + 1 && p.allowed[0] == None
      && forall k | 0 <= k < |listed| :: p.allowed[k + 1] == Some(listed[k])
  {
    hide Results, Reasons, Plain, Allowing;
  }

  /** What a policy accepts, from its list in any order. */
  lemma AllowAccepts(result: string, listed: seq<string>, frozen: seq<string>, given: string, reason: Option<string>)
    requires result in Results() && forall r | r in listed :: r in Reasons()
    requires forall r: string :: r in listed <==> r in frozen
    ensures (Allow(result, listed).result == given && reason in Allow(result, listed).allowed)
      <==> given == result && (reason == None || reason.value in frozen)
  {
    AllowLists(result, listed);
    hide Allow, Allowing, Results, Reasons;
    var allowed := Allow(result, listed).allowed;
    if reason.Some? && reason.value in listed {
      var k :| 0 <= k < |listed| && listed[k] == reason.value;
      assert allowed[k + 1] == reason;
    }
    if reason.Some? && reason in allowed {
      var k :| 0 <= k < |allowed| && allowed[k] == reason;
      assert k > 0 && listed[k - 1] == reason.value;
    }
  }

  /** Row i accepts what the policy table accepts. */
  predicate Agrees(row: (string, string, seq<string>), given: string, reason: Option<string>) {
    Accepts(EventPolicies(), row.0, given, reason) <==> given == row.1 && (reason == None || reason.value in row.2)
  }

  lemma RowAgrees(name: string, result: string, listed: seq<string>, frozen: seq<string>)
    requires Has(name, result, listed)
    requires forall r: string :: r in listed <==> r in frozen
    ensures forall given, reason :: Agrees((name, result, frozen), given, reason)
  {
    hide Results, Reasons, Allow, EventPolicies;
    forall given, reason
      ensures Agrees((name, result, frozen), given, reason)
    {
      AllowAccepts(result, listed, frozen, given, reason);
    }
  }

  lemma SessionRowsAgree(given: string, reason: Option<string>)
    ensures forall k | 0 <= k < 5 :: Agrees(FrozenContract()[k], given, reason)
  {
    LoginPolicy();
    LoginFailurePolicy();
    LogoutPolicy();
    RevocationPolicy();
    EveryRevocationPolicy();
    hide Has, Agrees;
    RowAgrees("login_success", "success", [], []);
    RowAgrees("login_failure", "failure", ["invalid_credentials", "dependency_unavailable"],
      ["dependency_unavailable", "invalid_credentials"]);
    RowAgrees("logout", "success", ["logout"], ["logout"]);
    RowAgrees("session_revoked", "success", ["concurrent_limit", "logout", "revoke_all", "password_reset"],
      ["concurrent_limit", "logout", "password_reset", "revoke_all"]);
    RowAgrees("all_sessions_revoked", "success", ["revoke_all", "password_reset"], ["password_reset", "revoke_all"]);
  }

  lemma PasswordRowsAgree(given: string, reason: Option<string>)
    ensures forall k | 5 <= k < 8 :: Agrees(FrozenContract()[k], given, reason)
  {
    RequestPolicy();
    PasswordPolicy();
    CompletionPolicy();
    hide Has, Agrees;
    RowAgrees("password_changed", "success", ["password_reset"], ["password_reset"]);
    RowAgrees("password_reset_requested", "success", [], []);
    RowAgrees("password_reset_completed", "success", ["password_reset"], ["password_reset"]);
  }

  lemma TenantRowsAgree(given: string, reason: Option<string>)
    ensures forall k | 8 <= k < 11 :: Agrees(FrozenContract()[k], given, reason)
  {
    MembershipPolicy();
    SwitchPolicy();
    ThrottlingPolicy();
    hide Has, Agrees;
    RowAgrees("membership_denied", "denied", ["membership_unavailable", "dependency_unavailable"],
      ["dependency_unavailable", "membership_unavailable"]);
    RowAgrees("tenant_switch", "success", [], []);
    RowAgrees("throttling_triggered", "denied",
      ["csrf_bootstrap", "login_username", "login_ip", "login_ip_username", "reset_username", "reset_ip"],
      ["csrf_bootstrap", "login_ip", "login_ip_username", "login_username", "reset_ip", "reset_username"]);
  }

  lemma RequestRowsAgree(given: string, reason: Option<string>)
    ensures forall k | 11 <= k < 14 :: Agrees(FrozenContract()[k], given, reason)
  {
    AuthorizationPolicy();
    CsrfPolicy();
    OriginPolicy();
    hide Has, Agrees;
    RowAgrees("authorization_denied", "denied",
      ["permission_denied", "membership_unavailable", "dependency_unavailable"],
      ["dependency_unavailable", "membership_unavailable", "permission_denied"]);
    RowAgrees("csrf_rejected", "denied", ["csrf_missing", "csrf_invalid", "csrf_stale"],
      ["csrf_invalid", "csrf_missing", "csrf_stale"]);
    RowAgrees("origin_rejected", "denied", ["origin_denied"], ["origin_denied"]);
  }

  lemma RoleRowsAgree(given: string, reason: Option<string>)
    ensures forall k | 14 <= k < 22 :: Agrees(FrozenContract()[k], given, reason)
  {
    RolePolicies();
    RelationPolicies();
    PruningPolicy();
    hide Has, Agrees;
    RowAgrees("role_created", "success", [], []);
    RowAgrees("role_updated", "success", [], []);
    RowAgrees("role_disabled", "success", [], []);
    RowAgrees("role_permission_assigned", "success", [], []);
    RowAgrees("role_permission_removed", "success", [], []);
    RowAgrees("membership_role_assigned", "success", [], []);
    RowAgrees("membership_role_removed", "success", [], []);
    RowAgrees("security_events_pruned", "success", ["retention_expired"], ["retention_expired"]);
  }

  lemma FrozenNames()
    ensures |FrozenContract()| == 22 && forall k | 0 <= k < 22 :: FrozenContract()[k].0 == Events()[k]
  {
    hide Results, Reasons;
  }

  /**
   The policy table accepts an event's result and reason exactly when the frozen contract has a disjunct that does, for
   every event, result and reason.
   */
  lemma PoliciesAreFrozen(event: string, given: string, reason: Option<string>)
    ensures Accepts(EventPolicies(), event, given, reason) <==>
      exists k :: 0 <= k < |FrozenContract()| && FrozenContract()[k].0 == event && given == FrozenContract()[k].1
        && (reason == None || reason.value in FrozenContract()[k].2)
  {
    PoliciesCoverEvents();
    EventCount();
    FrozenNames();
    SessionRowsAgree(given, reason);
    PasswordRowsAgree(given, reason);
    TenantRowsAgree(given, reason);
    RequestRowsAgree(given, reason);
    RoleRowsAgree(given, reason);
    hide EventPolicies, Events, FrozenContract;
    if event in Events() {
      var k :| 0 <= k < |Events()| && Events()[k] == event;
      assert Agrees(FrozenContract()[k], given, reason);
    }
  }
}
