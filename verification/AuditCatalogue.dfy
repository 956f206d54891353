/** The closed audit catalogue, its full set of row checks, and the agreement of those checks with the validator. */
module AuditCatalogue {
  import opened Prelude
  import opened SqlLiterals
  import opened AuditContract
  import RoleAdministration

  // ---- catalogues -----------------------------------------------------------------------------------------------

  function Events(): seq<string> {
    ["login_success", "login_failure", "logout", "session_revoked", "all_sessions_revoked", "password_changed",
     "password_reset_requested", "password_reset_completed", "membership_denied", "tenant_switch",
     "throttling_triggered",
     "authorization_denied", "csrf_rejected", "origin_rejected", "role_created", "role_updated", "role_disabled",
     "role_permission_assigned", "role_permission_removed", "membership_role_assigned", "membership_role_removed",
     "security_events_pruned"]
  }

  function Results(): seq<string> {
    ["success", "failure", "denied"]
  }

  function Reasons(): seq<string> {
    ["invalid_credentials", "membership_unavailable", "permission_denied", "csrf_missing", "csrf_invalid", "csrf_stale",
     "origin_denied", "csrf_bootstrap", "concurrent_limit", "logout", "revoke_all", "password_reset",
     "retention_expired",
     "dependency_unavailable", "login_username", "login_ip", "login_ip_username", "reset_username", "reset_ip"]
  }

  function SubjectKinds(): seq<string> {
    ["login_username", "login_ip", "reset_username", "reset_ip"]
  }

  function Permissions(): seq<string> {
    RoleAdministration.PermissionCatalog()
  }

  function RoleEvents(): seq<string> {
    ["role_created", "role_updated", "role_disabled", "role_permission_assigned", "role_permission_removed",
     "membership_role_assigned", "membership_role_removed"]
  }

  function RolePermissionEvents(): seq<string> {
    ["role_permission_assigned", "role_permission_removed"]
  }

  function MembershipRoleEvents(): seq<string> {
    ["membership_role_assigned", "membership_role_removed"]
  }

  predicate Allowing(p: Policy) {
    && None in p.allowed
    && Plain(p.result) && p.result in Results()
    && (forall r | r in p.allowed && r.Some? :: r.value in Reasons())
  }

  lemma ResultsPlain()
    ensures forall v | v in Results() :: Plain(v)
  {
  }

  /** A policy allows the reasons it lists and always the absent one. */
  function Allow(result: string, reasons: seq<string>): (p: Policy)
    requires result in Results() && forall r | r in reasons :: r in Reasons()
    ensures Allowing(p)
  {
    var p := Policy(result, [None] + seq(|reasons|, i requires 0 <= i < |reasons| => Some(reasons[i])));
    assert p.allowed[0] == None;
    ResultsPlain();
    p
  }

  function EventPolicies(): Policies {
    map[
      "login_success" := Allow("success", []),
      "login_failure" := Allow("failure", ["invalid_credentials", "dependency_unavailable"]),
      "logout" := Allow("success", ["logout"]),
      "session_revoked" := Allow("success", ["concurrent_limit", "logout", "revoke_all", "password_reset"]),
      "all_sessions_revoked" := Allow("success", ["revoke_all", "password_reset"]),
      "password_changed" := Allow("success", ["password_reset"]),
      "password_reset_requested" := Allow("success", []),
      "password_reset_completed" := Allow("success", ["password_reset"]),
      "membership_denied" := Allow("denied", ["membership_unavailable", "dependency_unavailable"]),
      "tenant_switch" := Allow("success", []),
      "throttling_triggered" := Allow("denied",
        ["csrf_bootstrap", "login_username", "login_ip", "login_ip_username", "reset_username", "reset_ip"]),
      "authorization_denied" :=
        Allow("denied", ["permission_denied", "membership_unavailable", "dependency_unavailable"]),
      "csrf_rejected" := Allow("denied", ["csrf_missing", "csrf_invalid", "csrf_stale"]),
      "origin_rejected" := Allow("denied", ["origin_denied"]),
      "role_created" := Allow("success", []),
      "role_updated" := Allow("success", []),
      "role_disabled" := Allow("success", []),
      "role_permission_assigned" := Allow("success", []),
      "role_permission_removed" := Allow("success", []),
      "membership_role_assigned" := Allow("success", []),
      "membership_role_removed" := Allow("success", []),
      "security_events_pruned" := Allow("success", ["retention_expired"])
    ]
  }

  lemma EarlyNamesPlain()
    ensures forall k | 0 <= k < 8 :: Plain(Events()[k])
  {
  }

  lemma MiddleNamesPlain()
    ensures forall k | 8 <= k < 15 :: Plain(Events()[k])
  {
  }

  lemma LateNamesPlain()
    ensures forall k | 15 <= k < 22 :: Plain(Events()[k])
  {
  }

  lemma EventCount()
    ensures |Events()| == 22
  {
  }

  lemma EventNamesPlain(i: nat)
    requires i < |Events()|
    ensures Plain(Events()[i])
  {
    hide Events, Plain;
    EventCount();
    EarlyNamesPlain();
    MiddleNamesPlain();
    LateNamesPlain();
  }

  lemma PoliciesCoverEvents()
    ensures forall k | k in Events() :: k in EventPolicies()
    ensures forall k | k in EventPolicies() :: k in Events()
  {
    hide Allow;
  }

  lemma PoliciesAllow()
    ensures forall k | k in EventPolicies() :: Allowing(EventPolicies()[k])
  {
    hide Allow, Allowing, Results, Reasons;
  }

  /** The policy table covers exactly the closed event catalogue, and every policy allows the absent reason. */
  lemma CatalogueCovered()
    ensures Table(EventPolicies(), Events()) && QuoteFree(EventPolicies())
    ensures forall k | k in EventPolicies() :: Allowing(EventPolicies()[k])
  {
    hide Allowing, Plain, Events, EventPolicies;
    EventCount();
    PoliciesCoverEvents();
    PoliciesAllow();
    AllowingPlain();
    forall k | k in Events()
      ensures Plain(k)
    {
      var i :| 0 <= i < |Events()| && Events()[i] == k;
      EventNamesPlain(i);
    }
  }

  lemma AllowingPlain()
    ensures forall p: Policy | Allowing(p) :: Plain(p.result)
  {
  }

  // ---- the checks -------------------------------------------------------------------------------------------------

  const NO_USER_NO_SESSION := And(IsNull(SessionId), IsNull(MembershipId))
  const FULL_IDENTITY := And(And(IsNotNull(UserId), IsNotNull(SessionId)), IsNotNull(MembershipId))
  const NO_SUBJECT := And(And(IsNull(SubjectDigest), IsNull(TextColumn(SubjectKind))), IsNull(SubjectKeyId))
  const NO_IDENTITY :=
    And(And(And(And(IsNull(UserId), IsNull(SessionId)), IsNull(MembershipId)), IsNull(RoleId)),
      IsNull(TargetMembershipId))

  function IdentityShape(): Check {
    And(Or(IsNotNull(UserId), NO_USER_NO_SESSION),
        Or(NotIn(EventType, Joined(["tenant_switch"] + Sorted(RoleEvents()))), FULL_IDENTITY))
  }

  function RoleShape(): Check {
    Equals(In(EventType, Values(RoleEvents())), IsNotNull(RoleId))
  }

  function TargetMembershipShape(): Check {
    Equals(In(EventType, Values(MembershipRoleEvents())), IsNotNull(TargetMembershipId))
  }

  function PermissionCatalog(): Check {
    Or(IsNull(TextColumn(PermissionId)), In(PermissionId, Values(Permissions())))
  }

  function PermissionShape(): Check {
    And(Or(NotIn(EventType, Values(RolePermissionEvents())), IsNotNull(TextColumn(PermissionId))),
        Or(IsNull(TextColumn(PermissionId)),
          In(EventType, Joined(["authorization_denied"] + Sorted(RolePermissionEvents())))))
  }

  function SubjectShape(): Check {
    Or(NO_SUBJECT,
       And(And(And(And(And(
         IsNotNull(SubjectDigest), OctetLengthIs(32)),
         IsNotNull(TextColumn(SubjectKind))), In(SubjectKind, Values(SubjectKinds()))),
         IsNotNull(SubjectKeyId)), KeyIdBetween(1, 32767)))
  }

  function AffectedCountShape(): Check {
    Or(And(Differs(EventType, Quoted("security_events_pruned")), IsNull(AffectedCount)),
       And(And(And(And(
         Equal(EventType, Quoted("security_events_pruned")), IsNotNull(AffectedCount)),
         CountAtLeast(0)), NO_IDENTITY), NO_SUBJECT))
  }

  function AuditChecks(): seq<Check> {
    CatalogueCovered();
    [In(EventType, Values(Events())), In(Result, Joined(Results())), EventContract(EventPolicies(), Events()),
     IdIsUuid7, CorrelationIsUuid, IdentityShape(), RoleShape(), TargetMembershipShape(),
     PermissionCatalog(), PermissionShape(), SubjectShape(), AffectedCountShape()]
  }

  // ---- what each check means on a typed row -----------------------------------------------------------------------

  lemma WithinJoined(value: string, vs: seq<string>)
    requires vs != []
    ensures Within(Some(value), Joined(vs)) == Of(value in vs)
  {
    ReadJoined(vs);
    assert Joined(vs) != [];
  }

  lemma WithinValues(value: string, vs: seq<string>)
    ensures Within(Some(value), Values(vs)) == Of(value in vs)
  {
    ReadValues(vs);
    SortedKeepsMembers(vs, value);
  }

  lemma MatchesQuoted(value: string, name: string)
    requires Plain(name)
    ensures Matches(Some(value), Quoted(name)) == Of(value == name)
  {
    ReadQuoted(name);
  }

  /** A literal before a rendered list extends it. */
  lemma WithinExtended(value: string, first: string, vs: seq<string>)
    ensures Within(Some(value), Joined([first] + Sorted(vs))) == Of(value == first || value in vs)
  {
    WithinJoined(value, [first] + Sorted(vs));
    SortedKeepsMembers(vs, value);
  }

  lemma IdentityShapeMeaning(row: Row)
    requires Typed(row)
    ensures Eval(row, IdentityShape()) ==
      Of(&& (row.user.Some? || (row.session == None && row.membership == None))
         && (row.eventType.value == "tenant_switch" || row.eventType.value in RoleEvents()
             ==> row.user.Some? && row.session.Some? && row.membership.Some?))
  {
    hide Events, RoleEvents, MembershipRoleEvents, RolePermissionEvents, Permissions, SubjectKinds, Within, Values;
    hide Joined, Sorted, Quoted;
    WithinExtended(row.eventType.value, "tenant_switch", RoleEvents());
    assert Eval(row, NO_USER_NO_SESSION) == Of(row.session == None && row.membership == None);
    assert Eval(row, And(IsNotNull(UserId), IsNotNull(SessionId))) == Of(row.user.Some? && row.session.Some?);
    assert Eval(row, FULL_IDENTITY) == Of(row.user.Some? && row.session.Some? && row.membership.Some?);
    var known := NotIn(EventType, Joined(["tenant_switch"] + Sorted(RoleEvents())));
    assert Eval(row, known) == Of(!(row.eventType.value == "tenant_switch" || row.eventType.value in RoleEvents()));
    assert Eval(row, Or(known, FULL_IDENTITY)) == Disj(Eval(row, known), Eval(row, FULL_IDENTITY));
    assert Eval(row, Or(IsNotNull(UserId), NO_USER_NO_SESSION)) ==
      Disj(Of(row.user.Some?), Eval(row, NO_USER_NO_SESSION));
  }

  lemma RoleShapeMeaning(row: Row)
    requires Typed(row)
    ensures Eval(row, RoleShape()) == Of(row.eventType.value in RoleEvents() <==> row.role.Some?)
    ensures Eval(row, TargetMembershipShape()) ==
      Of(row.eventType.value in MembershipRoleEvents() <==> row.target.Some?)
  {
    hide Events, RoleEvents, MembershipRoleEvents, RolePermissionEvents, Permissions, SubjectKinds, Within, Values;
    hide Joined, Sorted, Quoted;
    WithinValues(row.eventType.value, RoleEvents());
    WithinValues(row.eventType.value, MembershipRoleEvents());
    hide RoleEvents, MembershipRoleEvents, Within, Values;
  }

  lemma PermissionMeaning(row: Row)
    requires Typed(row)
    ensures Eval(row, PermissionCatalog()) == Of(row.permission.Some? ==> row.permission.value in Permissions())
    ensures Eval(row, PermissionShape()) ==
      Of(&& (row.eventType.value in RolePermissionEvents() ==> row.permission.Some?)
         && (row.permission.Some? ==>
            row.eventType.value == "authorization_denied" || row.eventType.value in RolePermissionEvents()))
  {
    hide Events, RoleEvents, MembershipRoleEvents, RolePermissionEvents, Permissions, SubjectKinds, Within, Values;
    hide Joined, Sorted, Quoted;
    if row.permission.Some? {
      WithinValues(row.permission.value, Permissions());
    }
    WithinValues(row.eventType.value, RolePermissionEvents());
    WithinExtended(row.eventType.value, "authorization_denied", RolePermissionEvents());
    var armed := NotIn(EventType, Values(RolePermissionEvents()));
    assert Eval(row, armed) == Of(row.eventType.value !in RolePermissionEvents());
    var named := In(EventType, Joined(["authorization_denied"] + Sorted(RolePermissionEvents())));
    assert Eval(row, named) ==
      Of(row.eventType.value == "authorization_denied" || row.eventType.value in RolePermissionEvents());
    assert Eval(row, Or(armed, IsNotNull(TextColumn(PermissionId)))) ==
      Disj(Eval(row, armed), Of(row.permission.Some?));
    assert Eval(row, Or(IsNull(TextColumn(PermissionId)), named)) == Disj(Of(row.permission == None), Eval(row, named));
  }

  predicate NoSubject(row: Row) {
    row.digest == None && row.kind == None && row.keyId == None
  }

  predicate NoIdentity(row: Row) {
    row.user == None && row.session == None && row.membership == None && row.role == None && row.target == None
  }

  lemma NothingMeaning(row: Row)
    ensures Eval(row, NO_SUBJECT) == Of(NoSubject(row))
    ensures Eval(row, NO_IDENTITY) == Of(NoIdentity(row))
  {
    var none := And(IsNull(SubjectDigest), IsNull(TextColumn(SubjectKind)));
    assert Eval(row, none) == Of(row.digest == None && row.kind == None);
    var two := And(IsNull(UserId), IsNull(SessionId));
    assert Eval(row, two) == Of(row.user == None && row.session == None);
    var three := And(two, IsNull(MembershipId));
    assert Eval(row, three) == Of(row.user == None && row.session == None && row.membership == None);
    var four := And(three, IsNull(RoleId));
    assert Eval(row, four) == Of(row.user == None && row.session == None && row.membership == None && row.role == None);
  }

  lemma SubjectShapeMeaning(row: Row)
    ensures Eval(row, SubjectShape()) ==
      Of(NoSubject(row)
         || (row.digest.Some? && |row.digest.value| == 32 && row.kind.Some? && row.kind.value in SubjectKinds()
             && row.keyId.Some? && 1 <= row.keyId.value <= 32767))
  {
    hide Events, RoleEvents, MembershipRoleEvents, RolePermissionEvents, Permissions, SubjectKinds;
    hide Within, Matches, Values, Joined, Sorted, Quoted, NoSubject, NoIdentity;
    NothingMeaning(row);
    if row.kind.Some? {
      WithinValues(row.kind.value, SubjectKinds());
    }
    var digest := And(IsNotNull(SubjectDigest), OctetLengthIs(32));
    assert Eval(row, digest) == Of(row.digest.Some? && |row.digest.value| == 32);
    var kind := And(digest, IsNotNull(TextColumn(SubjectKind)));
    assert Eval(row, kind) == Of(row.digest.Some? && |row.digest.value| == 32 && row.kind.Some?);
    var known := And(kind, In(SubjectKind, Values(SubjectKinds())));
    assert Eval(row, known) ==
      Of(row.digest.Some? && |row.digest.value| == 32 && row.kind.Some? && row.kind.value in SubjectKinds());
    var key := And(known, IsNotNull(SubjectKeyId));
    assert Eval(row, key) == Conj(Eval(row, known), Of(row.keyId.Some?));
    assert Eval(row, And(key, KeyIdBetween(1, 32767))) == Conj(Eval(row, key), Eval(row, KeyIdBetween(1, 32767)));
  }

  lemma PrunedPlain()
    ensures Plain("security_events_pruned")
  {
  }

  lemma AffectedCountMeaning(row: Row)
    requires Typed(row)
    ensures Eval(row, AffectedCountShape()) ==
      Of(if row.eventType.value == "security_events_pruned"
         then row.affected.Some? && row.affected.value >= 0 && NoIdentity(row) && NoSubject(row)
         else row.affected == None)
  {
    hide Events, RoleEvents, MembershipRoleEvents, RolePermissionEvents, Permissions, SubjectKinds;
    hide Within, Matches, Values, Joined, Sorted, Quoted, NoSubject, NoIdentity, Plain;
    NothingMeaning(row);
    PrunedPlain();
    MatchesQuoted(row.eventType.value, "security_events_pruned");
    var pruned := Equal(EventType, Quoted("security_events_pruned"));
    assert Eval(row, pruned) == Of(row.eventType.value == "security_events_pruned");
    var other := And(Differs(EventType, Quoted("security_events_pruned")), IsNull(AffectedCount));
    assert Eval(row, other) == Of(row.eventType.value != "security_events_pruned" && row.affected == None);
    var counted := And(pruned, IsNotNull(AffectedCount));
    assert Eval(row, counted) == Of(row.eventType.value == "security_events_pruned" && row.affected.Some?);
    var positive := And(counted, CountAtLeast(0));
    assert Eval(row, positive) == Conj(Eval(row, counted), Eval(row, CountAtLeast(0)));
    var alone := And(positive, NO_IDENTITY);
    assert Eval(row, alone) == Conj(Eval(row, positive), Eval(row, NO_IDENTITY));
    assert Eval(row, And(alone, NO_SUBJECT)) == Conj(Eval(row, alone), Eval(row, NO_SUBJECT));
  }

  // ---- the validator ------------------------------------------------------------------------------------------------

  /** An event intent; enumeration members are their values, and identities are identifiers by their type. */
  datatype Event = Event(
    eventType: string, result: string, reason: Option<string>,
    user: Option<nat>, session: Option<nat>, membership: Option<nat>, role: Option<nat>, target: Option<nat>,
    permission: Option<string>, digest: Option<seq<Byte>>, kind: Option<string>, keyId: Option<int>,
    affected: Option<int>)

  const MAX_BIGINT := 0x7FFF_FFFF_FFFF_FFFF

  /** SecurityAuditEvent._validate, check by check in its order. */
  predicate Validate(e: Event) {
    if e.eventType !in Events() || e.result !in Results() then false
    else if e.reason.Some? && e.reason.value !in Reasons() then false
    else if !Accepts(EventPolicies(), e.eventType, e.result, e.reason) then false
    else if e.user == None && (e.session.Some? || e.membership.Some?) then false
    else if (e.eventType == "tenant_switch" || e.eventType in RoleEvents())
            && (e.user == None || e.session == None || e.membership == None) then false
    else if (e.eventType in RoleEvents()) != e.role.Some? then false
    else if (e.eventType in MembershipRoleEvents()) != e.target.Some? then false
    else if e.permission.Some?
            && (e.permission.value !in Permissions()
                || !(e.eventType in RolePermissionEvents() || e.eventType == "authorization_denied")) then false
    else if e.permission == None && e.eventType in RolePermissionEvents() then false
    else if (e.digest.Some? || e.kind.Some? || e.keyId.Some?)
            && (e.digest == None || |e.digest.value| != 32 || e.kind == None || e.kind.value !in SubjectKinds()
                || e.keyId == None || !(1 <= e.keyId.value <= 32767)) then false
    else if e.eventType == "security_events_pruned" then
      && e.affected.Some? && 0 <= e.affected.value <= MAX_BIGINT
      && e.user == None && e.session == None && e.membership == None && e.role == None && e.target == None
      && e.digest == None && e.kind == None && e.keyId == None
    else e.affected == None
  }

  /** The row the writer asks the database to insert. */
  function InsertedRow(e: Event, id: string, correlation: string): Row {
    Row(id, correlation, Some(e.eventType), Some(e.result), e.reason, e.user, e.session, e.membership, e.role, e.target,
        e.permission, e.digest, e.kind, e.keyId, e.affected)
  }

  /** The casts to smallint and bigint on the way in. */
  predicate Fits(row: Row) {
    && (row.keyId.Some? ==> -32768 <= row.keyId.value <= 32767)
    && (row.affected.Some? ==> -MAX_BIGINT - 1 <= row.affected.value <= MAX_BIGINT)
  }

  /** The casts into the columns succeed and the conjunction of all twelve checks IS TRUE. */
  ghost predicate PassesChecks(row: Row) {
    Fits(row) && Eval(row, AllOf(AuditChecks())) == True
  }

  lemma SomeResults()
    ensures Results() != []
  {
  }

  lemma CatalogueMeaning(row: Row)
    requires Typed(row)
    ensures Eval(row, In(EventType, Values(Events()))) == Of(row.eventType.value in Events())
    ensures Eval(row, In(Result, Joined(Results()))) == Of(row.result.value in Results())
  {
    hide Events, Results, Within, Values, Joined;
    SomeResults();
    WithinValues(row.eventType.value, Events());
    WithinJoined(row.result.value, Results());
  }

  /**
   On the real table the contract check is the validator's policy lookup, and a permitted reason is a catalogued one.
   */
  lemma PolicyMeaning(row: Row)
    requires Typed(row)
    ensures Table(EventPolicies(), Events())
    ensures Eval(row, EventContract(EventPolicies(), Events())) ==
      Of(Accepts(EventPolicies(), row.eventType.value, row.result.value, row.reason))
    ensures Accepts(EventPolicies(), row.eventType.value, row.result.value, row.reason) && row.reason.Some? ==>
      row.reason.value in Reasons()
  {
    CatalogueCovered();
    hide Events, EventPolicies, Reasons, Results, Eval, EventContract, Table;
    ContractMeaning(EventPolicies(), Events(), row);
  }

  /** Once type and result are there no check is ever NULL, so rejecting FALSE and demanding TRUE are the same. */
  lemma ChecksDecided(row: Row)
    requires Typed(row)
    ensures forall c | c in AuditChecks() :: Eval(row, c) != Unknown
  {
    hide Eval, Events, EventPolicies, RoleEvents, MembershipRoleEvents, RolePermissionEvents, Permissions;
    hide SubjectKinds, Results, Reasons;
    hide Values, Joined, Table, EventContract, IdentityShape, RoleShape, TargetMembershipShape, PermissionCatalog;
    hide PermissionShape;
    hide SubjectShape, AffectedCountShape, Accepts, NoSubject, NoIdentity, IsUuid, IsUuid7;
    CatalogueMeaning(row);
    PolicyMeaning(row);
    IdentityShapeMeaning(row);
    RoleShapeMeaning(row);
    PermissionMeaning(row);
    SubjectShapeMeaning(row);
    AffectedCountMeaning(row);
    IdMeaning(row);
  }

  lemma IdMeaning(row: Row)
    ensures Eval(row, IdIsUuid7) == Of(IsUuid7(row.id)) && Eval(row, CorrelationIsUuid) == Of(IsUuid(row.correlation))
  {
  }

  /** The conjunction of all twelve checks IS TRUE exactly for the rows these twelve conditions describe. */
  predicate Conforms(row: Row)
    requires Typed(row)
  {
    var event := row.eventType.value;
    && event in Events() && row.result.value in Results()
    && Accepts(EventPolicies(), event, row.result.value, row.reason)
    && IsUuid7(row.id) && IsUuid(row.correlation)
    && (row.user.Some? || (row.session == None && row.membership == None))
    && (event == "tenant_switch" || event in RoleEvents() ==>
       row.user.Some? && row.session.Some? && row.membership.Some?)
    && (event in RoleEvents() <==> row.role.Some?)
    && (event in MembershipRoleEvents() <==> row.target.Some?)
    && (row.permission.Some? ==> row.permission.value in Permissions())
    && (event in RolePermissionEvents() ==> row.permission.Some?)
    && (row.permission.Some? ==> event == "authorization_denied" || event in RolePermissionEvents())
    && (NoSubject(row)
        || (row.digest.Some? && |row.digest.value| == 32 && row.kind.Some? && row.kind.value in SubjectKinds()
            && row.keyId.Some? && 1 <= row.keyId.value <= 32767))
    && (if event == "security_events_pruned"
        then row.affected.Some? && row.affected.value >= 0 && NoIdentity(row) && NoSubject(row)
        else row.affected == None)
  }

  lemma ChecksMeaning(row: Row)
    requires Typed(row)
    ensures Eval(row, AllOf(AuditChecks())) == True <==> Conforms(row)
  {
    hide Eval, Events, EventPolicies, RoleEvents, MembershipRoleEvents, RolePermissionEvents, Permissions;
    hide SubjectKinds, Results, Reasons;
    hide Values, Joined, Table, EventContract, IdentityShape, RoleShape, TargetMembershipShape, PermissionCatalog;
    hide PermissionShape;
    hide SubjectShape, AffectedCountShape, Accepts, NoSubject, NoIdentity, IsUuid, IsUuid7, AllOf;
    CatalogueMeaning(row);
    PolicyMeaning(row);
    IdentityShapeMeaning(row);
    RoleShapeMeaning(row);
    PermissionMeaning(row);
    SubjectShapeMeaning(row);
    AffectedCountMeaning(row);
    IdMeaning(row);
    AllOfTrue(row, AuditChecks());
    var cs := AuditChecks();
    assert (forall c | c in cs :: Eval(row, c) == True) <==> (forall i | 0 <= i < 12 :: Eval(row, cs[i]) == True);
  }

  /**
   An event's row passes the casts and checks exactly when the validator accepts the event and the writer's two
   identifiers are well formed.
   */
  lemma ValidatorAndChecksAgree(e: Event, id: string, correlation: string)
    ensures PassesChecks(InsertedRow(e, id, correlation)) <==> Validate(e) && IsUuid7(id) && IsUuid(correlation)
  {
    hide Eval, Events, EventPolicies, RoleEvents, MembershipRoleEvents, RolePermissionEvents, Permissions;
    hide SubjectKinds, Results, Reasons;
    hide Accepts, IsUuid, IsUuid7, AllOf, AuditChecks;
    var row := InsertedRow(e, id, correlation);
    ChecksMeaning(row);
    PolicyMeaning(row);
  }
}
