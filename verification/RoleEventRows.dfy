/** Role events as rows of the audit table: what the validator accepts of them, and what the table's checks pass. */
module RoleEventRows {
  import opened Prelude
  import opened RoleIntents
  import opened RoleAdministration
  import A = AuditCatalogue
  import AuditContract
  import Service = RoleAdministrationService

  function Name(kind: RoleEventType): string {
    match kind
    case RoleCreated => "role_created"
    case RoleUpdated => "role_updated"
    case RoleDisabled => "role_disabled"
    case PermissionAssigned => "role_permission_assigned"
    case PermissionRemoved => "role_permission_removed"
    case MembershipAssigned => "membership_role_assigned"
    case MembershipRemoved => "membership_role_removed"
  }

  /** The event the service hands to the writer: always a success without a reason, a subject or a count. */
  function AuditEvent(e: RoleEvent): A.Event {
    A.Event(Name(e.kind), "success", None, Some(e.user), Some(e.session), Some(e.membership), Some(e.role), e.target,
            e.permission, None, None, None, None)
  }

  function Place(kind: RoleEventType): (i: nat)
    ensures i < 7
  {
    match kind
    case RoleCreated => 0
    case RoleUpdated => 1
    case RoleDisabled => 2
    case PermissionAssigned => 3
    case PermissionRemoved => 4
    case MembershipAssigned => 5
    case MembershipRemoved => 6
  }

  lemma NameListed(kind: RoleEventType)
    ensures Name(kind) in A.Events() && Name(kind) in A.RoleEvents()
  {
    assert A.RoleEvents()[Place(kind)] == Name(kind);
    assert A.Events()[14 + Place(kind)] == Name(kind);
  }

  /** What distinguishes the names the checks ask about. */
  lemma NameApart(kind: RoleEventType)
    ensures Name(kind) in A.RolePermissionEvents() <==> NeedsPermission(kind)
    ensures Name(kind) in A.MembershipRoleEvents() <==> NeedsTarget(kind)
    ensures Name(kind) != "authorization_denied" && Name(kind) != "security_events_pruned"
  {
    var name := Name(kind);
    var granted, removed := "role_permission_assigned", "role_permission_removed";
    assert granted[0] == 'r' && removed[0] == 'r' && |granted| == 24 && |removed| == 23;
    var given, taken := "membership_role_assigned", "membership_role_removed";
    assert given[0] == 'm' && taken[0] == 'm' && |given| == 24 && |taken| == 23;
    assert A.RolePermissionEvents() == [granted, removed];
    assert A.MembershipRoleEvents() == [given, taken];
    assert |"authorization_denied"| == 20 && |"security_events_pruned"| == 22;
    assert |name| == match Place(kind) case 0 => 12 case 1 => 12 case 2 => 13 case 3 => 24 case 4 => 23 case 5 => 24
      case _ => 23;
  }

  lemma NamePolicy(kind: RoleEventType)
    ensures Name(kind) in A.EventPolicies() && A.EventPolicies()[Name(kind)] == A.Allow("success", [])
  {
    hide A.Allow, A.Allowing;
    assert "role_created"[5] == 'c' && "role_updated"[5] == 'u';
    assert "role_permission_assigned"[0] == 'r' && "role_permission_removed"[0] == 'r';
    assert "membership_role_assigned"[0] == 'm' && "membership_role_removed"[0] == 'm';
  }

  lemma SuccessListed()
    ensures "success" in A.Results()
  {
    assert A.Results()[0] == "success";
  }

  /** The validator accepts a role event exactly when it has its kind's shape and names a catalogued permission. */
  lemma RoleEventsValidate(e: RoleEvent)
    ensures A.Validate(AuditEvent(e)) <==> WellShaped(e) && Catalogued(e)
  {
    NamePolicy(e.kind);
    NameListed(e.kind);
    NameApart(e.kind);
    SuccessListed();
    hide Name, A.Events, A.EventPolicies, A.RoleEvents, A.MembershipRoleEvents, A.RolePermissionEvents, A.Results;
    hide PermissionCatalog, A.Reasons, A.SubjectKinds;
  }

  /** Every event of the seven calls passes the audit table's casts and checks, given well formed identifiers. */
  lemma CallEventsPass(actor: Actor, call: Call, id: string, correlation: string)
    ensures A.PassesChecks(A.InsertedRow(AuditEvent(EventOf(actor, call)), id, correlation))
      <==> AuditContract.IsUuid7(id) && AuditContract.IsUuid(correlation)
  {
    hide A.Validate, A.PassesChecks, A.InsertedRow, EventOf, AuditEvent, WellShaped, Catalogued;
    hide AuditContract.IsUuid7, AuditContract.IsUuid;
    Service.EventShaped(actor, call);
    RoleEventsValidate(EventOf(actor, call));
    A.ValidatorAndChecksAgree(AuditEvent(EventOf(actor, call)), id, correlation);
  }
}
